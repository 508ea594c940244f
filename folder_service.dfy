/**
 * The animation-folder service of `folderService.ts`: the list transforms
 * (create, add a frame, remove a frame, delete, rename), the localStorage
 * snapshot without frames and its read-back, the database read that
 * rebuilds each folder from its frame rows, and the folder export lookup.
 * Every transform takes the folder list it works on as a value.
 */
module FolderService {
  import opened Wrappers
  import opened Text
  import opened Seqs

  datatype AnimationFolder = AnimationFolder(id: string, name: string, frames: seq<string>, createdAt: string)

  /** `createAnimationFolder`: a new folder with the given name and no frames. `id` and `createdAt` stand for the random id and the clock. */
  function CreateAnimationFolder(name: string, id: string, createdAt: string): (f: AnimationFolder)
    ensures f.name == name && f.frames == [] && f.id == id && f.createdAt == createdAt
  {
    AnimationFolder(id, name, [], createdAt)
  }

  /** `addFrameToFolder`: `frameUrl` appended to the frames of every folder with the id. */
  function AddFrameToFolder(folders: seq<AnimationFolder>, folderId: string, frameUrl: string): (r: seq<AnimationFolder>)
    ensures |r| == |folders|
  {
    seq(|folders|, i requires 0 <= i < |folders| =>
      if folders[i].id == folderId then folders[i].(frames := folders[i].frames + [frameUrl]) else folders[i])
  }

  /**
   * Adding a frame changes only the frames of the matching folders, and
   * there only by the new frame at the end; the list keeps its order.
   */
  lemma AddFrameToFolderFacts(folders: seq<AnimationFolder>, folderId: string, frameUrl: string, i: int)
    requires 0 <= i < |folders|
    ensures var r := AddFrameToFolder(folders, folderId, frameUrl);
      r[i].id == folders[i].id && r[i].name == folders[i].name && r[i].createdAt == folders[i].createdAt
      && (folders[i].id == folderId ==> r[i].frames == folders[i].frames + [frameUrl])
      && (folders[i].id != folderId ==> r[i] == folders[i])
  {
  }

  /** One matching folder after `updatedFrames.splice(frameIndex, 1)`. */
  function RemovedIn(folder: AnimationFolder, folderId: string, frameIndex: int): AnimationFolder {
    if folder.id == folderId then folder.(frames := SpliceOut(folder.frames, frameIndex)) else folder
  }

  /** The list `removeFrameFromFolder` returns. */
  function FramesRemoved(folders: seq<AnimationFolder>, folderId: string, frameIndex: int): (r: seq<AnimationFolder>)
    ensures |r| == |folders|
  {
    seq(|folders|, i requires 0 <= i < |folders| => RemovedIn(folders[i], folderId, frameIndex))
  }

  /**
   * `a.splice(start, 1)` on an array: the elements after the removed one
   * move down one place; the returned length is the array's new length.
   */
  method SpliceOneInPlace(a: array<string>, start: int) returns (len: nat)
    modifies a
    ensures len <= a.Length
    ensures a[..len] == SpliceOut(old(a[..]), start)
  {
    var k := SpliceStart(start, a.Length);
    if k == a.Length {
      return a.Length;
    }
    var i := k;
    while i < a.Length - 1
      invariant k <= i <= a.Length - 1
      invariant forall j :: 0 <= j < k ==> a[j] == old(a[j])
      invariant forall j :: k <= j < i ==> a[j] == old(a[j + 1])
      invariant forall j :: i <= j < a.Length ==> a[j] == old(a[j])
    {
      a[i] := a[i + 1];
      i := i + 1;
    }
    len := a.Length - 1;
    assert a[..len] == old(a[..])[..k] + old(a[..])[k + 1..];
  }

  /**
   * `removeFrameFromFolder`: in every folder with the id, the frame list is
   * copied and `frameIndex` spliced out of the copy.
   */
  method RemoveFrameFromFolder(folders: seq<AnimationFolder>, folderId: string, frameIndex: int)
    returns (updated: seq<AnimationFolder>)
    ensures updated == FramesRemoved(folders, folderId, frameIndex)
  {
    updated := [];
    for i := 0 to |folders|
      invariant |updated| == i
      invariant forall j :: 0 <= j < i ==> updated[j] == RemovedIn(folders[j], folderId, frameIndex)
    {
      var folder := folders[i];
      if folder.id == folderId {
        var updatedFrames := new string[|folder.frames|](j requires 0 <= j < |folder.frames| => folder.frames[j]);
        assert updatedFrames[..] == folder.frames;
        var len := SpliceOneInPlace(updatedFrames, frameIndex);
        updated := updated + [folder.(frames := updatedFrames[..len])];
      } else {
        updated := updated + [folder];
      }
    }
  }

  /**
   * For an index inside the frames of the matching folders, exactly that
   * frame goes and the rest keep their order; other folders are untouched.
   */
  lemma RemoveFrameFacts(folders: seq<AnimationFolder>, folderId: string, frameIndex: int, i: int)
    requires 0 <= i < |folders|
    ensures var r := FramesRemoved(folders, folderId, frameIndex);
      r[i].id == folders[i].id && r[i].name == folders[i].name && r[i].createdAt == folders[i].createdAt
      && (folders[i].id == folderId && 0 <= frameIndex < |folders[i].frames| ==>
            r[i].frames == folders[i].frames[..frameIndex] + folders[i].frames[frameIndex + 1..])
      && (folders[i].id == folderId && frameIndex >= |folders[i].frames| ==> r[i] == folders[i])
      && (folders[i].id != folderId ==> r[i] == folders[i])
  {
  }

  /** Removing the last frame (`splice(-1, 1)`) undoes adding a frame. */
  lemma RemoveLastUndoesAdd(folders: seq<AnimationFolder>, folderId: string, frameUrl: string)
    ensures FramesRemoved(AddFrameToFolder(folders, folderId, frameUrl), folderId, -1) == folders
  {
    var added := AddFrameToFolder(folders, folderId, frameUrl);
    forall i | 0 <= i < |folders|
      ensures FramesRemoved(added, folderId, -1)[i] == folders[i]
    {
      if folders[i].id == folderId {
        var fs := folders[i].frames + [frameUrl];
        assert SpliceStart(-1, |fs|) == |folders[i].frames|;
        assert SpliceOut(fs, -1) == fs[..|folders[i].frames|];
        assert fs[..|folders[i].frames|] == folders[i].frames;
      }
    }
  }

  /** `deleteAnimationFolder`: the folders with a different id, in their order. */
  function DeleteAnimationFolder(folders: seq<AnimationFolder>, folderId: string): seq<AnimationFolder> {
    Filter(folders, (f: AnimationFolder) => f.id != folderId)
  }

  /**
   * After a delete no folder has the id, every other folder is still there
   * in its order, and deleting again changes nothing.
   */
  lemma DeleteAnimationFolderFacts(folders: seq<AnimationFolder>, folderId: string)
    ensures var r := DeleteAnimationFolder(folders, folderId);
      (forall i :: 0 <= i < |r| ==> r[i].id != folderId)
      && (forall f :: f in folders && f.id != folderId ==> f in r)
      && SubsequenceOf(r, folders)
      && DeleteAnimationFolder(r, folderId) == r
  {
    var p := (f: AnimationFolder) => f.id != folderId;
    var r := Filter(folders, p);
    FilterIsSubsequence(folders, p);
    FilterKeepsAll(r, p);
  }

  /** `renameAnimationFolder`: every folder with the id gets the new name. */
  function RenameAnimationFolder(folders: seq<AnimationFolder>, folderId: string, newName: string): (r: seq<AnimationFolder>)
    ensures |r| == |folders|
  {
    seq(|folders|, i requires 0 <= i < |folders| =>
      if folders[i].id == folderId then folders[i].(name := newName) else folders[i])
  }

  /**
   * A rename touches only the names of the matching folders, and a second
   * rename of the same folder overrides the first.
   */
  lemma RenameFacts(folders: seq<AnimationFolder>, folderId: string, a: string, b: string)
    ensures var r := RenameAnimationFolder(folders, folderId, a);
      (forall i :: 0 <= i < |r| ==>
         r[i].id == folders[i].id && r[i].frames == folders[i].frames && r[i].createdAt == folders[i].createdAt
         && r[i].name == (if folders[i].id == folderId then a else folders[i].name))
      && RenameAnimationFolder(r, folderId, b) == RenameAnimationFolder(folders, folderId, b)
  {
  }

  /** What `getAnimationFolders()` evaluates to: a pending Promise unless it is awaited. */
  datatype FoldersValue = PendingPromise | Folders(list: seq<AnimationFolder>)

  /** The `TypeError` raised by calling `map` on a Promise, which has no such method. */
  const MapOnPromiseError := "folders.map is not a function"

  /** `folders.map(...)` of the rename: an array is mapped, a Promise makes the call throw. */
  function MapRename(folders: FoldersValue, folderId: string, newName: string): (r: Result<seq<AnimationFolder>>)
    ensures r.Err? <==> folders.PendingPromise?
  {
    match folders
    case PendingPromise => Err(MapOnPromiseError)
    case Folders(list) => Ok(RenameAnimationFolder(list, folderId, newName))
  }

  /** `renameAnimationFolder` as written: the folders are read without `await`. */
  function RenameAsWritten(folderId: string, newName: string): Result<seq<AnimationFolder>> {
    MapRename(PendingPromise, folderId, newName)
  }

  /**
   * As written, every rename throws before anything is saved; with the
   * folders awaited, the same code gives the intended rename.
   */
  lemma RenameWithoutAwaitThrows(folders: seq<AnimationFolder>, folderId: string, newName: string)
    ensures RenameAsWritten(folderId, newName) == Err(MapOnPromiseError)
    ensures MapRename(Folders(folders), folderId, newName) == Ok(RenameAnimationFolder(folders, folderId, newName))
  {
  }

  // ---------------------------------------------------------------------------
  // localStorage

  /** What the folders key of localStorage holds: nothing, text that does not parse, or a saved list. */
  datatype Stored = Absent | Unparsable | Saved(folders: seq<AnimationFolder>)

  /** `saveAnimationFolders`: every folder is stored with its frames emptied. */
  function SaveAnimationFolders(folders: seq<AnimationFolder>): (s: Stored)
    ensures s.Saved? && |s.folders| == |folders|
  {
    Saved(seq(|folders|, i requires 0 <= i < |folders| => folders[i].(frames := [])))
  }

  /** The localStorage path of `getAnimationFolders`: an empty list when nothing is stored or the text does not parse. */
  function GetStoredFolders(s: Stored): (r: seq<AnimationFolder>)
    ensures s.Absent? || s.Unparsable? ==> r == []
  {
    match s
    case Saved(folders) => folders
    case _ => []
  }

  /** Reading back a saved list gives every folder, in order, with all its fields except its frames. */
  lemma SaveThenGetFolders(folders: seq<AnimationFolder>)
    ensures var r := GetStoredFolders(SaveAnimationFolders(folders));
      |r| == |folders|
      && forall i :: 0 <= i < |r| ==>
           r[i].frames == [] && r[i].id == folders[i].id && r[i].name == folders[i].name
           && r[i].createdAt == folders[i].createdAt
  {
  }

  /** Saving is idempotent: a read-back list saves to the same stored value. */
  lemma SaveIdempotent(folders: seq<AnimationFolder>)
    ensures SaveAnimationFolders(GetStoredFolders(SaveAnimationFolders(folders))) == SaveAnimationFolders(folders)
  {
  }

  // ---------------------------------------------------------------------------
  // Database

  /** A row of the folders store. */
  datatype FolderRow = FolderRow(id: string, name: string, createdAt: string)

  /** The frame rows of a folder, in the order they were stored. */
  function FramesFor(frameRows: map<string, seq<string>>, id: string): seq<string> {
    if id in frameRows then frameRows[id] else []
  }

  /** One folder rebuilt from its row and its frame rows. */
  function LoadedFolder(row: FolderRow, frameRows: map<string, seq<string>>): AnimationFolder {
    AnimationFolder(row.id, row.name, FramesFor(frameRows, row.id), row.createdAt)
  }

  /**
   * The database path of `getAnimationFolders`: for every folder row, fetch
   * its frame rows and push the rebuilt folder. `rows` is `None` when a
   * request fails, which yields an empty list.
   */
  method LoadFoldersFromDatabase(rows: Option<seq<FolderRow>>, frameRows: map<string, seq<string>>)
    returns (result: seq<AnimationFolder>)
    ensures rows.None? ==> result == []
    ensures rows.Some? ==>
      |result| == |rows.value| && forall i :: 0 <= i < |result| ==> result[i] == LoadedFolder(rows.value[i], frameRows)
  {
    if rows.None? {
      return [];
    }
    result := [];
    for k := 0 to |rows.value|
      invariant |result| == k
      invariant forall i :: 0 <= i < k ==> result[i] == LoadedFolder(rows.value[i], frameRows)
    {
      var dbFolder := rows.value[k];
      result := result + [AnimationFolder(dbFolder.id, dbFolder.name, FramesFor(frameRows, dbFolder.id), dbFolder.createdAt)];
    }
  }

  /** `saveFolderFrames` of `addFrameToFolder`: one more frame row for the folder. */
  function StoreFrame(frameRows: map<string, seq<string>>, folderId: string, frameUrl: string): map<string, seq<string>> {
    frameRows[folderId := FramesFor(frameRows, folderId) + [frameUrl]]
  }

  /**
   * In database mode, the frame row `addFrameToFolder` stores reloads as
   * the list it returns: storing the frame and reloading agrees with adding
   * the frame to the loaded list.
   */
  lemma StoredFrameReloads(rows: seq<FolderRow>, frameRows: map<string, seq<string>>, folderId: string, frameUrl: string)
    ensures var before := seq(|rows|, i requires 0 <= i < |rows| => LoadedFolder(rows[i], frameRows));
      var after := seq(|rows|, i requires 0 <= i < |rows| => LoadedFolder(rows[i], StoreFrame(frameRows, folderId, frameUrl)));
      after == AddFrameToFolder(before, folderId, frameUrl)
  {
  }

  // ---------------------------------------------------------------------------
  // Export

  /** The document `exportFolderAsZip` saves. */
  datatype FolderExport = FolderExport(name: string, frames: seq<string>, createdAt: string)

  /** The first folder with the id. */
  function Find(folders: seq<AnimationFolder>, folderId: string): (r: Option<AnimationFolder>)
    ensures r.None? <==> forall i :: 0 <= i < |folders| ==> folders[i].id != folderId
    ensures r.Some? ==> exists k :: (0 <= k < |folders| && folders[k] == r.value
      && folders[k].id == folderId && forall j :: 0 <= j < k ==> folders[j].id != folderId)
  {
    if folders == [] then None
    else if folders[0].id == folderId then
      assert folders[0] == folders[0];
      Some(folders[0])
    else
      var r := Find(folders[1..], folderId);
      assert forall i :: 1 <= i < |folders| ==> folders[i] == folders[1..][i - 1];
      if r.Some? then
        var k :| 0 <= k < |folders[1..]| && folders[1..][k] == r.value
          && folders[1..][k].id == folderId && forall j :: 0 <= j < k ==> folders[1..][j].id != folderId;
        assert folders[k + 1] == r.value;
        r
      else r
  }

  /** The file name of an export: whitespace runs of the name become `_`, then `_animation.json`. */
  function ExportFilename(name: string): string {
    ReplaceWhitespaceRuns(name) + "_animation.json"
  }

  /**
   * `exportFolderAsZip`: the saved file name and document for the first
   * folder with the id, or 'Folder not found'.
   */
  function ExportFolderAsZip(folders: seq<AnimationFolder>, folderId: string): (r: Result<(string, FolderExport)>)
    ensures r.Err? <==> forall i :: 0 <= i < |folders| ==> folders[i].id != folderId
    ensures r.Err? ==> r.message == "Folder not found"
    ensures r.Ok? ==> exists k :: (0 <= k < |folders| && folders[k].id == folderId
      && (forall j :: 0 <= j < k ==> folders[j].id != folderId)
      && r.value == (ExportFilename(folders[k].name), FolderExport(folders[k].name, folders[k].frames, folders[k].createdAt)))
  {
    match Find(folders, folderId)
    case None => Err("Folder not found")
    case Some(folder) =>
      Ok((ExportFilename(folder.name), FolderExport(folder.name, folder.frames, folder.createdAt)))
  }

  /** A name without whitespace is kept as it is in the export file name. */
  lemma ExportFilenamePlain(name: string)
    requires forall i :: 0 <= i < |name| ==> !IsWhitespace(name[i])
    ensures ExportFilename(name) == name + "_animation.json"
  {
    ReplaceWhitespaceRunsFacts(name, false);
  }

  /** Two words separated by any run of whitespace are joined by one underscore. */
  lemma ExportFilenameJoinsWords(first: string, gap: string, second: string)
    requires forall i :: 0 <= i < |first| ==> !IsWhitespace(first[i])
    requires forall i :: 0 <= i < |second| ==> !IsWhitespace(second[i])
    requires gap != [] && forall i :: 0 <= i < |gap| ==> IsWhitespace(gap[i])
    ensures ExportFilename(first + gap + second) == first + "_" + second + "_animation.json"
  {
    PlainPrefix(first, gap + second);
    assert first + gap + second == first + (gap + second);
    WhitespaceRun(gap, second);
    PlainAfterRun(second);
  }

  /** Characters that are not whitespace are copied, and reset the run. */
  lemma {:induction false} PlainPrefix(s: string, rest: string)
    requires forall i :: 0 <= i < |s| ==> !IsWhitespace(s[i])
    ensures ReplaceWhitespaceRuns(s + rest) == s + ReplaceWhitespaceRuns(rest)
  {
    if s != [] {
      var t := s + rest;
      assert t[0] == s[0] && !IsWhitespace(t[0]);
      assert t[1..] == s[1..] + rest;
      PlainPrefix(s[1..], rest);
      calc {
        ReplaceWhitespaceRuns(t);
        [s[0]] + ReplaceWhitespaceRuns(s[1..] + rest);
        [s[0]] + (s[1..] + ReplaceWhitespaceRuns(rest));
        { assert s == [s[0]] + s[1..]; }
        s + ReplaceWhitespaceRuns(rest);
      }
    } else {
      assert s + rest == rest;
    }
  }

  /** A run of whitespace becomes one underscore. */
  lemma {:induction false} WhitespaceRun(gap: string, rest: string)
    requires gap != [] && forall i :: 0 <= i < |gap| ==> IsWhitespace(gap[i])
    ensures ReplaceWhitespaceRuns(gap + rest) == "_" + ReplaceWhitespaceRuns(rest, true)
  {
    assert (gap + rest)[1..] == gap[1..] + rest;
    RunContinues(gap[1..], rest);
  }

  lemma {:induction false} RunContinues(gap: string, rest: string)
    requires forall i :: 0 <= i < |gap| ==> IsWhitespace(gap[i])
    ensures ReplaceWhitespaceRuns(gap + rest, true) == ReplaceWhitespaceRuns(rest, true)
  {
    if gap != [] {
      assert (gap + rest)[1..] == gap[1..] + rest;
      RunContinues(gap[1..], rest);
    } else {
      assert gap + rest == rest;
    }
  }

  /** After a run, text without whitespace is copied unchanged. */
  lemma PlainAfterRun(s: string)
    requires forall i :: 0 <= i < |s| ==> !IsWhitespace(s[i])
    ensures ReplaceWhitespaceRuns(s, true) == s
  {
    ReplaceWhitespaceRunsFacts(s, true);
  }
}
