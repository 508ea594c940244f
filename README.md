# Pixel Adventure: a verified model of the animation core

Pixel Adventure is a browser application for making pixel-art sprite animations. It generates frames, either from an image service or as placeholder drawings, and groups them into sprite sets. It plays the frames back with several animation types and easing curves, and exports them as GIFs, sprite sheets with optional metadata, or project files. Its "special mode" loads a sprite sheet, lets the user drag cut lines over a preview of it, and slices it into frames.

This Dafny project models the logic of that core and proves what the code promises. Browser, canvas, network and storage calls are abstracted away.

- **GridSlicer**, the sprite-sheet slicer of the special-mode dialog:
  - the number inputs;
  - fitting the image into the 500 by 400 preview;
  - seeding evenly spaced cut lines;
  - the mouse handlers that pick up, drag and drop a line (class `GridEditor`);
  - slicing the image along the lines in grid, horizontal or vertical mode. A slice records the rectangle of the original image it is copied from.
- **FrameManager**, for sprite sets:
  - creating a set; appending, removing and reordering its frames;
  - converting a set to numbered frames;
  - choosing the generation prompt;
  - the frame order written to and read back from the database, with the store as a map;
  - the localStorage snapshot.
- **Page**, the main page's handlers. They move, delete and add frames, delete a sprite set, import sliced frames and toggle special mode. Class `Home` holds the page state.
- **AnimationPreview**, the playback tick. Class `Preview` holds the direction, completion flag and last-advance time. The pure `NextFrame` is the switch over loop, bounce, once and reverse.
- **Easing**: the four easing curves, their dispatch and the per-frame duration.
- **SheetLayout, AnimationUtils and ExportUtils**:
  - the sprite-sheet layout with and without padding;
  - the metadata file and its name;
  - the GIF encoder settings;
  - the data-URL MIME and payload split, and the byte-copy loop;
  - the frames-per-second mapping;
  - the placeholder generator;
  - the validation of an imported project file.
- **FolderService**, for animation folders:
  - list transforms: create, add a frame, remove a frame, delete, rename;
  - the localStorage snapshot and its read-back;
  - the database read;
  - the export lookup and file name.
- **SpriteManager**: the case-insensitive sprite-set search, and the thumbnail strip with its "+N" badge.
- **PixelPerfect**: the fit-and-centre scaling of the preview image.
- **Helper modules** Wrappers, Text, Seqs, Sorting and FrameTypes:
  - `Option` and `Result`;
  - decimal printing, lower-casing, substring search and whitespace-run replacement;
  - JavaScript `splice` and `filter`;
  - sorting by a key;
  - the shared frame records and their `id = position + 1` numbering.

Coordinates, scales, easing values, frame rates and durations are Dafny `real`. Pixel counts and indices are integers. Random ids and timestamps are parameters. Decoded images are reduced to their width and height.

## Model

| member | source | states |
|---|---|---|
| FrameTypes.NumberedFramesFacts | src/lib/animation/frameManager.ts:302-308 | numbering a list of sources keeps the sources in order; frame i gets id i+1 and file name "<i+1>.png" |
| FrameTypes.NumberedFramesDistinct | src/lib/animation/frameManager.ts:302-308 | no two numbered frames share an id or a file name |
| Text.ReplaceWhitespaceRuns | src/lib/api/folderService.ts:232 | the result is no longer than the input |
| Text.ReplaceWhitespaceRunsFacts | src/lib/api/folderService.ts:232 | the result holds no whitespace, and text without whitespace comes out unchanged |
| Text.Includes | src/components/sprites/SpriteManager.tsx:23-25 | `includes` holds exactly when the needle occurs at some position |
| Seqs.SpliceOut | src/lib/animation/frameManager.ts:150-151 | `splice(start, 1)` removes the element at the normalised start when one is there, and otherwise changes nothing |
| Seqs.SpliceIn | src/lib/animation/frameManager.ts:183-184 | `splice(start, 0, x)` puts x at the normalised start; removing it gives back the list |
| Seqs.Filter | src/lib/api/folderService.ts:119 | `filter` keeps exactly the elements satisfying the predicate |
| Sorting.SortBy | src/components/ui/SpecialModeDialog.tsx:240 | the ascending numeric sort returns an ordered permutation of its input |
| Sorting.SortedPermutationUnique | src/components/ui/SpecialModeDialog.tsx:240 | two ordered permutations of one list with distinct keys are equal, so the sort result is determined |
| FrameManager.PromptFor | src/lib/animation/frameManager.ts:57-58 | a non-empty custom prompt is used as it is; an empty one falls back to the template built from style, object, action and background |
| FrameManager.GenerateFrames | src/lib/animation/frameManager.ts:47-84 | with an API key the frames are the service's images for the chosen prompt, numbered 1..n; without one, exactly the `count` frames `generatePlaceholderFrames` gives for the same style, object and action |
| FrameManager.CreateSpriteSet | src/lib/animation/frameManager.ts:95-119 | frames and thumbnails are the input frames' sources in order; the metadata copies the parameters |
| FrameManager.CreateThenConvert | src/lib/animation/frameManager.ts:302-308 | a set created from frames converts back to frames with the same sources in the same order |
| FrameManager.AddFrameToSpriteSet | src/lib/animation/frameManager.ts:127-136 | the frame's source is appended to both lists and the old lists are kept as a prefix; id, name and metadata are unchanged |
| FrameManager.RemoveFrameFromSpriteSet | src/lib/animation/frameManager.ts:144-159 | for an index in range exactly that element leaves both lists and the rest keep their order; in each list a negative index down to minus its length counts from the end, and one below that removes the first element; an index past the end changes nothing |
| FrameManager.ReorderFramesInSpriteSet | src/lib/animation/frameManager.ts:168-191 | the same set when from == to; otherwise in both lists the moved element is at the target and the others keep their relative order |
| FrameManager.MovedToPermutes | src/lib/animation/frameManager.ts:168-191 | a move keeps the same elements: the list after it is a permutation of the list before |
| FrameManager.SpriteSetToFrames | src/lib/animation/frameManager.ts:302-308 | one frame per source, in order, with id i+1 and name "<i+1>.png" |
| FrameManager.FrameRows | src/lib/animation/frameManager.ts:222-230 | one save writes row i with frame index i and the i-th source; the rows are strictly ordered by frame index |
| FrameManager.FrameOrderRoundTrip | src/lib/animation/frameManager.ts:262-271 | whatever order the saved rows come back in, sorting by frame index restores the set's frames |
| FrameManager.SaveTwiceDuplicatesFrames | src/lib/animation/frameManager.ts:222-230 | as written, with an auto-increment frame store, a set saved twice loads back with twice its frames |
| FrameManager.SaveSet | src/lib/animation/frameManager.ts:206-230 | corrected save: after it the set's stored rows are exactly the rows just written; every other set's rows are untouched |
| FrameManager.SaveThenLoad | src/lib/animation/frameManager.ts:222-230 | after the corrected save a set's frames load back in order |
| FrameManager.LoadedSet | src/lib/animation/frameManager.ts:267-280 | the rebuilt set keeps the row's id and name, and its frames and thumbnails are the same list, the rows sorted by frame index |
| FrameManager.SaveSpriteSetsToDatabase | src/lib/animation/frameManager.ts:206-231 | as written, the loop saves every set in list order, and every id ends up with its old frame rows followed by the rows of each listed set carrying it, in list order |
| FrameManager.RowsAfterAppend | src/lib/animation/frameManager.ts:222-230 | as written, one save adds its rows after the ones stored under its id and leaves every other id's rows alone |
| FrameManager.SaveAllAppendingRows | src/lib/animation/frameManager.ts:206-231 | as written, after the saves each id holds its old rows followed by every listed set's rows for it |
| FrameManager.AccumulatedRowsAbsent | src/lib/animation/frameManager.ts:206-231 | a list with no set carrying an id writes no rows for it |
| FrameManager.AccumulatedRowsSingle | src/lib/animation/frameManager.ts:206-231 | a set whose id no other listed set carries writes exactly its own rows for it |
| FrameManager.ResavedSetLoadsTwice | src/lib/animation/frameManager.ts:206-281 | as written, re-saving a set the store already holds (as every set loaded at start-up is) makes it load back with twice its frames |
| FrameManager.FirstSaveLoadsBack | src/lib/animation/frameManager.ts:206-281 | as written, a set whose id the store did not hold and that is listed once loads back with its frames in order |
| FrameManager.SaveAllSameRecords | src/lib/animation/frameManager.ts:209-220 | the as-written and the corrected saves write the same sprite rows |
| FrameManager.AppendingRecordLastWins | src/lib/animation/frameManager.ts:209-220 | as written, the last set saved under an id decides that id's sprite row |
| FrameManager.SaveAllKeepsOthers | src/lib/animation/frameManager.ts:206-231 | corrected saves: sets not in the saved list keep their stored rows |
| FrameManager.SaveAllLastWins | src/lib/animation/frameManager.ts:206-231 | corrected saves: the last set saved under an id decides its sprite row and its frame rows |
| FrameManager.LoadSpriteSetsFromDatabase | src/lib/animation/frameManager.ts:262-281 | one set per sprite row, in store order: the set rebuilt from that row (id, name, metadata) whose frames and thumbnails are that sprite's rows sorted by frame index |
| FrameManager.SavedSetsLoadBack | src/lib/animation/frameManager.ts:206-281 | corrected saves: a saved set that is not saved again later loads back with its id and its frames in order, whatever the store held before |
| FrameManager.LocalStorageSnapshot | src/lib/animation/frameManager.ts:235-240 | every set is stored with no frames and at most its first thumbnail; id, name and metadata are kept |
| Page.Swap | src/app/page.tsx:197-199 | the two positions are exchanged, every other position is kept, and the multiset is preserved |
| Page.MovedFramesFacts | src/app/page.tsx:193-202 | up with index > 0 swaps with the previous frame and down before the end swaps with the next; otherwise nothing changes; length and multiset are always kept |
| Page.MoveUpThenDown | src/app/page.tsx:193-200 | moving a frame up and then back down restores the order |
| Page.SyncActive | src/app/page.tsx:204-218 | the sync keeps every set's id, name and metadata and the list's length |
| Page.SyncActiveFacts | src/app/page.tsx:204-218 | with an active id, the active set's frames and thumbnails become the new frames' sources and every other set is unchanged; with no active id nothing changes |
| Page.RemoveAt | src/app/page.tsx:222 | exactly the frame at the index goes when it exists; otherwise the list is unchanged |
| Page.ClampedFrameIndex | src/app/page.tsx:225-227 | the position is kept if it is still inside; otherwise it becomes max(0, newLength-1) |
| Page.DeleteKeepsIndexInRange | src/app/page.tsx:221-227 | after a delete the player's position lies among the remaining frames, and a real delete shortens the list by one |
| Page.DeleteSpriteSetFacts | src/app/page.tsx:159-161 | no set with the id remains, every other set is kept in order, and an absent id changes nothing |
| Page.AddFrameContinuesNumbering | src/app/page.tsx:249-255 | an added frame continues the 1..n numbering of the list |
| Page.FindSetIndex | src/app/page.tsx:133 | `find` stops at the first set with the id: no earlier set has it, and the length means none has |
| Page.EffectAfterSync | src/app/page.tsx:131-152 | after a handler's sync, the effect finds the active set at the same place and re-derives frames with the sources the handler wrote, numbered 1..n; frames already numbered come back unchanged |
| Page.NumberedBySources | src/lib/animation/frameManager.ts:303-307 | two frame lists numbered 1..n with the same sources are the same list |
| Page.Home.constructor | src/app/page.tsx:36-67 | the initial state: no sets, active id "093abc", no frames, position 0, special mode off and dialog closed; the database is the one given |
| Page.Home.MoveFrame | src/app/page.tsx:193-219 | the frames become the moved order and the active set is synced; nothing else changes |
| Page.Home.DeleteFrame | src/app/page.tsx:221-244 | the frame is removed, the position is clamped and the active set is synced; this is the state before the effect, which then resets the position to 0 (`Page.Home.ActiveSetEffect`) |
| Page.Home.AddFrame | src/app/page.tsx:246-273 | one frame is appended with id n+1, name "<n+1>.png" and the fixed placeholder image, and the active set is synced |
| Page.Home.DeleteSpriteSet | src/app/page.tsx:159-166 | the sets with the id are filtered out; if it was active, the first remaining set becomes active, or none |
| Page.Home.ImportFrames | src/app/page.tsx:304-328 | nothing for an empty import; otherwise a new set with the imported sources is appended and made active, the frames become the imported ones, and the whole list is saved with the as-written appending save, so every id gains the rows of each listed set carrying it (sets already stored are stored twice, `FrameManager.ResavedSetLoadsTwice`) |
| Page.Home.ActiveSetEffect | src/app/page.tsx:131-152 | with a truthy active id, the frames become the first set with that id converted by `spriteSetToFrames`, and stay when no set has it; without one they are emptied; the position becomes 0; the sets, the id, the dialog flags and the store are unchanged |
| Page.Home.SpecialModeToggle | src/app/page.tsx:286-295 | turning on sets the flag and opens the dialog; turning off only clears the flag |
| AnimationPreview.JsRem | src/components/animation/AnimationPreview.tsx:76 | JavaScript `%`: agrees with the mathematical remainder for non-negative dividends and stays strictly between -n and n |
| AnimationPreview.NextFrameFacts | src/components/animation/AnimationPreview.tsx:71-110 | the next frame is in range; loop wraps to 0 and reverse wraps to the last frame; bounce turns at either end and flips its direction exactly there; once stops on the last frame and marks completion; other flags are unchanged |
| AnimationPreview.ReverseUndoesLoop | src/components/animation/AnimationPreview.tsx:75-109 | a reverse step undoes a loop step |
| AnimationPreview.LoopAfterCounts | src/components/animation/AnimationPreview.tsx:75-77 | after k loop steps frame (current + k) mod n shows |
| AnimationPreview.LoopCycle | src/components/animation/AnimationPreview.tsx:75-77 | n loop steps return to the starting frame |
| AnimationPreview.BaseDuration | src/components/animation/AnimationPreview.tsx:33-35 | the base frame duration lies between 1000/24 and 1000 ms |
| AnimationPreview.Preview.constructor | src/components/animation/AnimationPreview.tsx:28-30 | playback starts forward, not complete, with last-advance time 0 |
| AnimationPreview.Preview.PlayingChanged | src/components/animation/AnimationPreview.tsx:40-44 | starting playback clears the completion flag; pausing leaves it |
| AnimationPreview.Preview.Tick | src/components/animation/AnimationPreview.tsx:56-112 | no change while paused, with at most one frame, after completion, or before the eased duration has elapsed; otherwise the last-advance time becomes the timestamp and frame, direction and flag become `NextFrame` of the old state |
| AnimationPreview.TickStaysInRange | src/components/animation/AnimationPreview.tsx:71-110 | for n ≥ 2, playback never leaves the frames of the animation |
| Easing.Linear | src/lib/animation/easingFunctions.ts:10 | the linear curve is the identity |
| Easing.EaseInShape | src/lib/animation/easingFunctions.ts:17 | ease-in maps 0 to 0 and 1 to 1, and is monotone with values in [0, 1] on [0, 1] |
| Easing.EaseOutShape | src/lib/animation/easingFunctions.ts:24 | ease-out maps 0 to 0 and 1 to 1, and is monotone with values in [0, 1] on [0, 1] |
| Easing.EaseInOutLowHalf | src/lib/animation/easingFunctions.ts:31-32 | on [0, 1/2) ease-in-out stays in [0, 1/2) |
| Easing.EaseInOutHighHalf | src/lib/animation/easingFunctions.ts:31-32 | on [1/2, 1] ease-in-out stays in [1/2, 1] |
| Easing.EaseInOutShape | src/lib/animation/easingFunctions.ts:31-32 | both branches give 1/2 at 1/2; the ends are fixed; the curve is monotone with values in [0, 1] on [0, 1] |
| Easing.ApplyEasing | src/lib/animation/easingFunctions.ts:40-56 | each name selects its curve and any other name leaves t unchanged |
| Easing.ApplyEasingRange | src/lib/animation/easingFunctions.ts:40-56 | every choice maps [0, 1] into [0, 1], with 0 to 0 and 1 to 1 |
| Easing.PositionInUnit | src/lib/animation/easingFunctions.ts:77 | a frame's normalised position lies in [0, 1]; it is 0 for the first frame and 1 for the last |
| Easing.FrameDuration | src/lib/animation/easingFunctions.ts:66-84 | linear easing or at most one frame gives the base duration |
| Easing.FrameDurationBounds | src/lib/animation/easingFunctions.ts:76-83 | the duration lies between 0.5 and 1.5 times the base; unless linear, the first frame gets 0.5 times and the last 1.5 times |
| PixelPerfect.CalculateScaling | src/components/animation/PixelPerfectImage.tsx:41-54 | with no image, pixelSize at the origin; otherwise the scale is 0.8 of the smaller container-to-image ratio and opposite margins are equal |
| PixelPerfect.RenderedSize | src/components/animation/PixelPerfectImage.tsx:62-63 | the drawn size is the image size times the scale, or 0 without an image |
| PixelPerfect.ScalingFitsAndCentres | src/components/animation/PixelPerfectImage.tsx:41-63 | the drawn image is at most 80% of the container in each dimension and exactly 80% in the limiting one; the margins are positive; the aspect ratio is kept |
| SheetLayout.Rows | src/lib/animation/exportUtils.ts:127 | rows is the ceiling of n / columns |
| SheetLayout.CellInsideCanvas | src/lib/animation/exportUtils.ts:126-149 | with padding ≥ 0 every drawn cell lies on the canvas |
| SheetLayout.CellsDisjoint | src/lib/animation/exportUtils.ts:141-149 | with padding ≥ 0 the cells of two different frames do not overlap |
| SheetLayout.DrawFrames | src/lib/animation/exportUtils.ts:141-149 | the draw loop places frame i at ((i mod columns)(fw+pad), (i div columns)(fh+pad)) |
| AnimationUtils.CalculateFps | src/lib/animation/animationUtils.ts:14-17 | the frame rate is always in [1, 24], and is speed·2.4 when that is in range |
| AnimationUtils.CalculateFpsMonotone | src/lib/animation/animationUtils.ts:14-17 | a faster setting never gives a lower frame rate; the speeds 1..10 are not clamped |
| AnimationUtils.CreateGif | src/lib/animation/animationUtils.ts:49-77 | 'No frames provided' exactly for no images; otherwise the first image's size, no repeat option, and one 1000/fps delay per frame drawn, none when the canvases have no 2D context |
| AnimationUtils.CreateSpriteSheet | src/lib/animation/animationUtils.ts:117-145 | 'No frames provided' for no images and 'Could not get canvas context' without a context; otherwise a canvas of fw·min(columns, n) by fh·rows with the unpadded layout |
| AnimationUtils.MimeOf | src/lib/animation/animationUtils.ts:192 | the extracted MIME type holds no ',', ':' or ';' |
| AnimationUtils.Payload | src/lib/animation/animationUtils.ts:191 | the payload exists exactly when the URL has a comma, and holds no comma |
| AnimationUtils.DataUrlRoundTrip | src/lib/animation/animationUtils.ts:191-192 | a base64 data URL parses back into its MIME type and its payload |
| AnimationUtils.ByteOf | src/lib/animation/animationUtils.ts:197 | a store into a byte array keeps the character code when it is below 256, and otherwise its low eight bits |
| AnimationUtils.CopyBytes | src/lib/animation/animationUtils.ts:193-198 | the new array has the string's length and holds each character's byte |
| AnimationUtils.BaseColour | src/lib/animation/animationUtils.ts:242-249 | the four known objects get their colours and every other object gets the default |
| AnimationUtils.PoseRects | src/lib/animation/animationUtils.ts:267-279 | the walking, running and attacking shapes lie on the 32 by 32 canvas |
| AnimationUtils.PoseCycle | src/lib/animation/animationUtils.ts:267-279 | the integer-geometry poses repeat every four frames |
| AnimationUtils.GeneratePlaceholderFrames | src/lib/animation/animationUtils.ts:249-314 | exactly `count` frames with ids 1..count and names "<i>.png", each drawn in the object's colour |
| ExportUtils.RepeatFlag | src/lib/animation/exportUtils.ts:62 | repeat is 0 exactly when looping and -1 exactly when not |
| ExportUtils.ExportGif | src/lib/animation/exportUtils.ts:32-76 | 'No frames to export' exactly for no frames; otherwise the first frame's size, the repeat flag, and one 1000/fps delay per frame drawn |
| ExportUtils.FrameDataMatchesDrawing | src/lib/animation/exportUtils.ts:181-189 | metadata entry i records index i, a row and column that give back i, and the position the frame was drawn at |
| ExportUtils.LastDot | src/lib/animation/exportUtils.ts:193 | finds the last '.' of the name, or none |
| ExportUtils.StripExtension | src/lib/animation/exportUtils.ts:193 | a trailing extension (a dot and one or more characters other than '.' and '/') is removed; a name without one is unchanged |
| ExportUtils.MetadataFilenameReplacesExtension | src/lib/animation/exportUtils.ts:193 | "base.ext" gives "base.json" |
| ExportUtils.MetadataFilenameWithoutExtension | src/lib/animation/exportUtils.ts:193 | a name without a dot gets ".json" appended |
| ExportUtils.ExportSpriteSheet | src/lib/animation/exportUtils.ts:102-195 | 'No frames to export', then 'Could not get canvas context'; otherwise the padded layout, plus the metadata file exactly when it is asked for and a set is given |
| ExportUtils.ImportProject | src/lib/animation/exportUtils.ts:230-259 | 'Failed to read file' for a failed or empty read; success exactly for an object whose spriteSets is an array, which is returned unchanged; 'Invalid project file format' for any other parsed non-null document |
| ExportUtils.ImportAcceptsProjectObject | src/lib/animation/exportUtils.ts:239-244 | a document whose spriteSets is an array imports exactly that array |
| FolderService.CreateAnimationFolder | src/lib/api/folderService.ts:33-39 | the new folder has the given name, id and time, and no frames |
| FolderService.AddFrameToFolder | src/lib/api/folderService.ts:62-70 | the folder list keeps its length |
| FolderService.AddFrameToFolderFacts | src/lib/api/folderService.ts:59-70 | matching folders get the frame appended; every other folder and the order are unchanged |
| FolderService.FramesRemoved | src/lib/api/folderService.ts:93-104 | the folder list keeps its length |
| FolderService.SpliceOneInPlace | src/lib/api/folderService.ts:95-96 | splicing in place leaves the array's prefix equal to the list with the element removed |
| FolderService.RemoveFrameFromFolder | src/lib/api/folderService.ts:90-104 | the loop over folders with an in-place splice equals the list transform |
| FolderService.RemoveFrameFacts | src/lib/api/folderService.ts:90-104 | for an index in range exactly that frame leaves the matching folders; other folders are untouched |
| FolderService.RemoveLastUndoesAdd | src/lib/api/folderService.ts:93-104 | removing the last frame (index -1) undoes adding a frame |
| FolderService.DeleteAnimationFolderFacts | src/lib/api/folderService.ts:117-119 | no folder with the id remains, the others are kept in order, and deleting again changes nothing |
| FolderService.RenameAnimationFolder | src/lib/api/folderService.ts:141-149 | the folder list keeps its length |
| FolderService.RenameFacts | src/lib/api/folderService.ts:138-149 | only the names of matching folders change, and a second rename overrides the first |
| FolderService.MapRename | src/lib/api/folderService.ts:139-149 | the `map` throws exactly when the folders are still a Promise |
| FolderService.RenameWithoutAwaitThrows | src/lib/api/folderService.ts:138-155 | as written every rename throws a TypeError; with the folders awaited the code gives the intended rename |
| FolderService.SaveAnimationFolders | src/lib/api/folderService.ts:195-204 | a list is saved with one entry per folder |
| FolderService.GetStoredFolders | src/lib/api/folderService.ts:182-188 | nothing stored, or unparsable text, reads as the empty list |
| FolderService.SaveThenGetFolders | src/lib/api/folderService.ts:195-204 | reading back gives every folder, in order, with every field kept except its frames, which are empty |
| FolderService.SaveIdempotent | src/lib/api/folderService.ts:195-204 | saving a read-back list stores the same value |
| FolderService.LoadFoldersFromDatabase | src/lib/api/folderService.ts:161-188 | a failed read gives []; otherwise one folder per row, in order, with that folder's frame rows |
| FolderService.StoredFrameReloads | src/lib/api/folderService.ts:72-75 | in database mode, the stored frame row reloads as the appended frame |
| FolderService.Find | src/lib/api/folderService.ts:216 | `find` returns the first folder with the id, or none when no folder has it |
| FolderService.ExportFolderAsZip | src/lib/api/folderService.ts:214-232 | 'Folder not found' exactly when no folder has the id; otherwise the first such folder's name, frames and time under its export file name |
| FolderService.ExportFilenamePlain | src/lib/api/folderService.ts:232 | a name without whitespace is kept, followed by "_animation.json" |
| FolderService.ExportFilenameJoinsWords | src/lib/api/folderService.ts:232 | two words separated by a run of whitespace are joined by one underscore |
| SpriteManager.FilteredSpriteSetsFacts | src/components/sprites/SpriteManager.tsx:21-27 | an empty search shows every set in order; any search shows an order-preserving subsequence holding exactly the matching sets |
| SpriteManager.NoMetadataMatchesOnId | src/components/sprites/SpriteManager.tsx:22-25 | a set without metadata matches only through its id |
| SpriteManager.FilterIgnoresCase | src/components/sprites/SpriteManager.tsx:22-25 | typing the search in lower case finds the same sets |
| SpriteManager.ShownThumbnails | src/components/sprites/SpriteManager.tsx:91 | at most four thumbnails are shown, as a prefix of the list; all of them when there are at most four |
| SpriteManager.OverflowBadge | src/components/sprites/SpriteManager.tsx:100-104 | the badge is shown exactly when there are more than four thumbnails |
| SpriteManager.ThumbnailsAccounted | src/components/sprites/SpriteManager.tsx:91-104 | the shown thumbnails plus the badge count equal the number of thumbnails; a shown badge counts at least one |
| GridSlicer.ClampInput | src/components/ui/SpecialModeDialog.tsx:747 | the result is within the bounds; an unreadable or zero input gives the fallback; an in-range input is kept; out-of-range inputs clamp to the nearer bound |
| GridSlicer.FrameCountInput | src/components/ui/SpecialModeDialog.tsx:867 | the frame count is always 2..12, with 2 for an unreadable input |
| GridSlicer.AnimationFramesInput | src/components/ui/SpecialModeDialog.tsx:616 | the animation frame count is always 1..24, with 1 for an unreadable input |
| GridSlicer.FitScale | src/components/ui/SpecialModeDialog.tsx:85-100 | the shrink factor is in (0, 1], keeps the image within 500 by 400, and is 1 for an image that already fits |
| GridSlicer.FitToViewport | src/components/ui/SpecialModeDialog.tsx:85-100 | the fitted size is at most 500 by 400 and keeps the aspect ratio; an image that fits is unchanged |
| GridSlicer.FitMatchesScale | src/components/ui/SpecialModeDialog.tsx:90-100 | the two capping steps amount to one uniform scale by the smaller axis factor |
| GridSlicer.ScalesAgreeAfterFit | src/components/ui/SpecialModeDialog.tsx:384-385 | after the fit the separately computed x and y scale factors are equal |
| GridSlicer.EvenCuts | src/components/ui/SpecialModeDialog.tsx:118-121 | n even parts give n-1 cuts |
| GridSlicer.EvenCutsInside | src/components/ui/SpecialModeDialog.tsx:114-130 | the seeded cuts increase strictly and lie strictly inside the dimension |
| GridSlicer.SeedGridLines | src/components/ui/SpecialModeDialog.tsx:114-130 | x gets the cuts i·width/n for horizontal and grid, otherwise none; y likewise for vertical and grid |
| GridSlicer.PushEvenCuts | src/components/ui/SpecialModeDialog.tsx:118-121 | the loop pushes exactly the n-1 even cuts i·dim/n, in order (none for n < 2) |
| GridSlicer.FirstNear | src/components/ui/SpecialModeDialog.tsx:204-210 | the found line is within 10 pixels and no earlier line is; none means no line is near |
| GridSlicer.MoveLine | src/components/ui/SpecialModeDialog.tsx:233-247 | the moved axis keeps its length, is sorted ascending, and holds the old lines with the dragged slot replaced by the cursor coordinate |
| GridSlicer.MoveLineCharacterised | src/components/ui/SpecialModeDialog.tsx:233-247 | the moved list is the only ordered list with those elements |
| GridSlicer.MoveLineInBounds | src/components/ui/SpecialModeDialog.tsx:233-247 | lines inside [0, limit] stay inside when the cursor is inside; the move does not clamp |
| GridSlicer.GridEditor.constructor | src/components/ui/SpecialModeDialog.tsx:48-52 | the editor starts with no lines and no drag |
| GridSlicer.GridEditor.InitGridLines | src/components/ui/SpecialModeDialog.tsx:114-133 | the lines become the seeded cuts of the orientation |
| GridSlicer.GridEditor.MouseDown | src/components/ui/SpecialModeDialog.tsx:194-220 | a line within 10 pixels of the cursor on x starts an x drag; only if there is none, one on y starts a y drag; otherwise nothing changes; the lines never change |
| GridSlicer.GridEditor.MouseMove | src/components/ui/SpecialModeDialog.tsx:223-251 | no change without a drag; otherwise the dragged axis becomes `MoveLine` of the old one and the other axis is untouched |
| GridSlicer.GridEditor.MouseUp | src/components/ui/SpecialModeDialog.tsx:253-255 | the drag ends and the lines stay |
| GridSlicer.IndexOf | src/components/ui/SpecialModeDialog.tsx:237 | the index of the first slot holding the value |
| GridSlicer.MoveTrackedLine | src/components/ui/SpecialModeDialog.tsx:233-247 | the corrected move: the same lines as `MoveLine`, with the drag index pointing at the dragged line |
| GridSlicer.TrackedDragKeepsOtherLines | src/components/ui/SpecialModeDialog.tsx:233-247 | with the index tracked, two moves of one drag keep every other line |
| GridSlicer.StaleDragIndexMovesNeighbour | src/components/ui/SpecialModeDialog.tsx:233-247 | as written, for lines a < b, dragging a past b to p and then to q (b < p < q) leaves lines at p and q: the line at b, which was never dragged, is gone |
| GridSlicer.Scaled | src/components/ui/SpecialModeDialog.tsx:388-389 | scaling keeps the number of lines |
| GridSlicer.Cuts | src/components/ui/SpecialModeDialog.tsx:391-392 | the boundaries are 0, the scaled lines and the dimension: |lines|+2 entries |
| GridSlicer.CutsOrdered | src/components/ui/SpecialModeDialog.tsx:384-392 | ordered preview lines inside the preview give ordered boundaries |
| GridSlicer.GridSlices | src/components/ui/SpecialModeDialog.tsx:398-437 | the grid has (|cx|-1)(|cy|-1) cells |
| GridSlicer.HorizontalStrips | src/components/ui/SpecialModeDialog.tsx:438-469 | one strip per x interval |
| GridSlicer.VerticalStrips | src/components/ui/SpecialModeDialog.tsx:470-503 | one strip per y interval |
| GridSlicer.SliceGrid | src/components/ui/SpecialModeDialog.tsx:398-437 | the nested loops emit the grid's cells in row-major order |
| GridSlicer.CellAt | src/components/ui/SpecialModeDialog.tsx:399-408 | the cell in row r and column c is slice r·nx+c of the grid, numbered from 1 and cut between the lines around it |
| GridSlicer.SliceRow | src/components/ui/SpecialModeDialog.tsx:400-436 | the inner loop extends the emitted prefix by one row of cells |
| GridSlicer.SliceHorizontal | src/components/ui/SpecialModeDialog.tsx:438-469 | the horizontal loop emits the full-height strips |
| GridSlicer.SliceVertical | src/components/ui/SpecialModeDialog.tsx:470-503 | the vertical loop emits the full-width strips |
| GridSlicer.SplitImage | src/components/ui/SpecialModeDialog.tsx:350-521 | each failure gives its message, in the code's order; otherwise the slices of the orientation |
| GridSlicer.SplitBeforePreviewLoads | src/components/ui/SpecialModeDialog.tsx:350-521 | a split made before the preview has loaded (no lines, any preview size) gives one frame covering the whole image, in every mode |
| GridSlicer.GridSplitShape | src/components/ui/SpecialModeDialog.tsx:398-437 | grid mode emits (|x|+1)(|y|+1) frames, row by row: the cell in row r and column c is frame k = r(|x|+1)+c, with id k+1, name "frame_<k+1>.png" and the region between the cuts around it |
| GridSlicer.HorizontalStripsTile | src/components/ui/SpecialModeDialog.tsx:438-469 | horizontal mode emits |x|+1 full-height strips from 0 to the image width; each starts where the previous ends and the widths add up to the width |
| GridSlicer.VerticalStripsTile | src/components/ui/SpecialModeDialog.tsx:470-503 | vertical mode emits |y|+1 full-width strips from 0 to the image height; each starts where the previous ends and the heights add up to the height |

## Left out

- Canvas drawing, image decoding, `toDataURL`, `atob`, `FileReader`, the GIF encoder, file saving and screenshots are left out. A decoded image is its width and height. A sliced frame is the rectangle it is copied from. A placeholder frame's image is a parameter `render`. The placeholder poses of "dancing" and the idle pose use sines and cosines and are not modelled (`PoseRects` returns none for them).
- Some behaviour is outside the logic:
  - the image service, generation with the Gemini API, and the one-second placeholder delay;
  - `requestAnimationFrame` scheduling;
  - when React runs effects, and the batching of state setters;
  - `drawGridLines` rendering.

  Each handler is one atomic transition. The page effect of src/app/page.tsx:131-152 runs after every change of `activeSpriteSetId` or `spriteSets`, so after every `handleMoveFrame`, `handleDeleteFrame`, `handleAddFrame` and `handleImportFrames` while an id is active (from the start, "093abc"). It is the separate transition `Page.Home.ActiveSetEffect`. It re-derives `frames` from the active set, renumbered 1..n, and sets `currentFrameIndex` to 0. The `Home` handler contracts give the state the handler itself writes, before the effect runs; `EffectAfterSync` states what the effect then makes of it. The effect's `setIsPlaying(false)` and the control-panel values it copies from the metadata are not modelled, because `Home` holds neither.
- IndexedDB and SQL storage are a map from ids to rows, not I/O. The frame saves of `saveSpriteSetsToStorage` are not awaited and can land in any order. `FrameOrderRoundTrip` covers every order of the rows, but the interleaving itself is not modelled.
- The localStorage read of `loadSpriteSetsFromStorage` returns the stored snapshot and is not modelled beyond `LocalStorageSnapshot`. `exportProject` (a JSON dump with the current date) is not modelled.
- Random ids and `new Date()` timestamps are parameters.
- Floating point is not modelled. Coordinates, easing values, frame rates and scales are exact reals, so IEEE rounding and NaN are out of scope.
- `getAnimationFolders` is async, but `createAnimationFolder`, `removeFrameFromFolder`, `renameAnimationFolder` and `exportFolderAsZip` call it without `await` (src/lib/api/folderService.ts:47, 91, 139, 215). As written they work on a Promise and throw (recorded under Findings for the rename). The model gives their intended list transforms. `CreateAnimationFolder` does not model its localStorage save. In database mode, rename and remove write only to localStorage, which the model does not show.
- The JSON text of `importProject` is a parsed document given by a `parse` parameter. The `SyntaxError` and `TypeError` messages are the constants `ParseError` and `NullPropertyError`. The imported sets are returned unchecked, as in the code.
- The data-URL conversion in `exportSpriteSheetWithOptions` (src/lib/animation/exportUtils.ts:155-164) is the same code as in `exportSpriteSheet`. It is modelled once as `AnimationUtils.MimeOf`, `Payload` and `CopyBytes`.
- `createGif` and `exportGifWithOptions` skip a frame whose canvas has no 2D context. The model has one `hasContext` flag for all canvases, so either every frame is drawn or none is.
- ExportUtils.ExportSpriteSheet and AnimationUtils.CreateSpriteSheet require at least one column. The UI offers 1 to 10, and the code computes `Math.ceil(n / 0)` otherwise.
- ExportUtils.ExportGif and AnimationUtils.CreateGif require fps > 0. The UI offers 1 to 30, and the code divides by zero otherwise.
- FrameManager.ReorderFramesInSpriteSet requires the frame taken out to exist. With a from-index outside the list, the code inserts `undefined` into a list of image sources.
- GridSlicer.SplitImage requires, on each axis, a positive preview size or no lines. Before the preview's `onload` the size is 0 and no lines exist, and the split gives one whole-image frame (`SplitBeforePreviewLoads`). The model assumes that a decoded image has a positive size, the same assumption `CalculateScaling` makes; a zero size with lines is then not reachable, because lines are seeded only after `onload` and from that size. Under a zero-size image the code would scale by Infinity or NaN; the model uses 0 and does not cover that case.
- GridSlicer.GridEditor.InitGridLines requires that no drag is in progress. The controls that re-seed the lines are reached only after the mouse has left the canvas, and leaving ends the drag.
- PixelPerfect.CalculateScaling requires an image with a positive size, because the code divides by it.
- Page.Home.ImportFrames models the database branch of `saveSpriteSetsToStorage`, with the store already open. The localStorage fallback (`FrameManager.LocalStorageSnapshot`) is not chosen there. The save is not awaited, and the model applies it at once, after the state update.
- Page.Home.DeleteFrame, Page.Home.MoveFrame, Page.Home.AddFrame and Page.Home.ImportFrames state the position the handler writes (`ClampedFrameIndex` for a delete, unchanged otherwise). The effect that follows resets it to 0 (`Page.Home.ActiveSetEffect`), so the page ends at 0 whenever an id is active.
- Page.Home.MoveFrame requires the index of a listed frame, because the buttons are drawn per frame.
- Text.Lower lower-cases ASCII letters only. JavaScript's `toLowerCase` also maps other scripts.
- AnimationUtils.BaseColour does not model lookups of `Object.prototype` keys such as "constructor" in the colour table.
- AnimationUtils.ByteOf models the store of `charCodeAt` into a `Uint8Array`. After `atob` every code is below 256, and then the store keeps it unchanged.
- The animation type and the easing are closed datatypes or known strings. The easing's default branch is modelled. An unknown animation type, which leaves the frame unchanged in the code, is not.
- Some parts belong to other source files, which are not part of this model:
  - the IndexedDB and SQL layers;
  - the other UI components;
  - `handleCreateSpriteSet`, `handleSelectFrame` and `handleGenerate` of the page;
  - the image-generation and upload handlers of the dialog.

## Findings

| source | as written | input that shows it | evidently intended | confidence | as-written member | corrected member |
|---|---|---|---|---|---|---|
| src/lib/animation/frameManager.ts:222-230 | every save adds the set's frame rows to the auto-increment frame store, next to the rows of earlier saves | save a set with one frame twice, then load it | a save replaces the set's frame rows, so a set loads back with its own frames | high, not executed | FrameManager.SaveTwiceDuplicatesFrames | FrameManager.SaveThenLoad |
| src/components/ui/SpecialModeDialog.tsx:233-247 | the drag keeps writing to the slot index it started with, although the sort may have moved the dragged line to another slot | lines [100, 200]; drag line 0 to 250 (sorted to [200, 250]), then to 260 | the drag follows the dragged line, giving [200, 260] | high, not executed | GridSlicer.StaleDragIndexMovesNeighbour | GridSlicer.TrackedDragKeepsOtherLines |
| src/lib/api/folderService.ts:138-155 | `getAnimationFolders` is async, but the rename reads it without `await`, so `folders` is a Promise and `folders.map` throws a TypeError; the same happens at lines 47, 91 and 215 | rename any folder | the folders are awaited, and the matching folder gets the new name | high, not executed | FolderService.RenameWithoutAwaitThrows | FolderService.RenameFacts |
