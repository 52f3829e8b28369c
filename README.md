# AbcView core, modelled in Dafny

AbcView is a viewer for Alembic scene files. It has a Qt main window, an OpenGL
viewer and several tree widgets. Most of it is GUI glue. This project models
the parts of it that make decisions:

- **The shared viewer state** (`ViewerState`, file `viewer_state.dfy`). `GLState`
  holds an ordered, duplicate-free list of scenes and a camera table keyed by
  name. It also keeps the time bounds, the current time and frame, and the
  playback flag with its frame counter. It is a class whose methods update
  these fields. Time is an exact `real`, so `frame = time * fps` and
  `time = frame / fps` hold exactly.
- **The viewer's key handling** (`ViewerWidget`, file `viewer_widget.dfy`). The
  space bar toggles playback. The number keys 0-4 set the drawing mode of the
  selected scenes, or of the camera when no scene is selected. The arrow keys
  step the current frame through the wrapping frame setter.
- **Tree bookkeeping** (`TreeWidget` and `TreeItems`, files `tree_widget.dfy` and
  `tree_items.dfy`). This covers:
  - the column tables, and `colnum` and `column_names` over them;
  - the index window the array-reading thread emits;
  - the object tree as an arena of numbered items;
  - lazy, populate-once child building;
  - load and unload;
  - removal of top-level items;
  - the walk up to the nearest scene;
  - in-place renaming of sessions and scenes.
- **Main-window decisions** (`App`, `Version` and `Scripts`, files `app.dfy`,
  `version.dfy` and `scripts.dfy`). This covers:
  - the deferred overrides;
  - `_load`: adding files, the bail-out, the frame range, the overrides, the
    clamp and the tree items;
  - the camera handlers and the two session decorators;
  - the Alembic version gate;
  - script discovery and the merge of user script directories.
- **The C++ command line** (`Cli`, file `cli.dfy`). Arguments are split into
  options and files, and each file is added as a scene, in order.

`Wrappers` (`wrappers.dfy`) holds `Option`, `Result` and `Outcome` and the
exceptions the model raises. `FileKinds` (`file_kinds.dfy`) holds the session
and scene file suffixes.

Where the code does something other than what its comments or docstrings
suggest, the model follows the code, with two exceptions listed under
"Findings": the version gate and the object-item constructor. For these the
code as written is modelled alongside, and the rest of the model uses the
evidently intended behaviour. Elsewhere:

- `make_dirty` and `make_clean` return before they mark the session, so
  decorated handlers never change its dirty flag.
- `time_range` with unset bounds compares each scene's bound with the builtin
  functions `min` and `max`. Python 2 orders every number before them. So the
  scan keeps the last scene's minimum, and the first scene's maximum when the
  maximum is unset.
- The space key's second test compares the bound method `frame_count` with a
  number, which is never true.
- `version_check` compares the major and the minor number each on its own.

## Model

| member | source | states |
|---|---|---|
| ViewerState.IndexOf | python/AbcView/lib/abcview/widget/viewer_widget.py:290-292 | the position found holds the scene, no earlier position does, and None means the scene is absent |
| ViewerState.WithScene | python/AbcView/lib/abcview/widget/viewer_widget.py:259-273 | after adding, the scene is present and the list stays duplicate-free; a present scene keeps its place and the list its length, and becomes visible again with the given time and nothing else changed; a new scene is appended with the given time; other scenes are unchanged |
| ViewerState.Without | python/AbcView/lib/abcview/widget/viewer_widget.py:284-294 | removing a scene shortens the list by at most one |
| ViewerState.Others | python/AbcView/lib/abcview/widget/viewer_widget.py:284-294 | the scenes left after a removal are no more than before and none has the removed id |
| ViewerState.WithoutLength | python/AbcView/lib/abcview/widget/viewer_widget.py:284-294 | removal drops exactly one scene when present and none when absent |
| ViewerState.WithoutShrinks | python/AbcView/lib/abcview/widget/viewer_widget.py:284-294 | removal only takes scenes away (multiset inclusion) |
| ViewerState.WithoutRemoves | python/AbcView/lib/abcview/widget/viewer_widget.py:284-294 | after removal from a duplicate-free list the scene is no longer present |
| ViewerState.WithoutKeepsOthers | python/AbcView/lib/abcview/widget/viewer_widget.py:284-294 | removal keeps every other scene, in order (equals the reference filter `Others`) |
| ViewerState.OthersOfAbsent | python/AbcView/lib/abcview/widget/viewer_widget.py:284-294 | filtering out an absent scene changes nothing |
| ViewerState.OthersKeepsDistinct | python/AbcView/lib/abcview/widget/viewer_widget.py:284-294 | the remaining scenes stay duplicate-free, none has the removed identity, and all come from the old list |
| ViewerState.StampVisible | python/AbcView/lib/abcview/widget/viewer_widget.py:337-339 | every visible scene gets the new time and every invisible scene is left as it was, position by position |
| ViewerState.StampVisibleTwice | python/AbcView/lib/abcview/widget/viewer_widget.py:331-344 | setting the time twice leaves only the second time on the scenes |
| ViewerState.StampVisibleKeepsIds | python/AbcView/lib/abcview/widget/viewer_widget.py:337-339 | setting the time keeps the scene list duplicate-free |
| ViewerState.WrapFrame | python/AbcView/lib/abcview/widget/viewer_widget.py:351-355 | a frame past the last becomes the first, one before the first becomes the last, an in-range frame is kept; the result lies in a proper range |
| ViewerState.PyRangeLength | python/AbcView/lib/abcview/widget/viewer_widget.py:426 | Python's `range(a, b)` has b - a elements, or none when a >= b |
| ViewerState.PyRange | python/AbcView/lib/abcview/widget/viewer_widget.py:426 | the k-th number of `range(a, b)` is a + k |
| ViewerState.FrameCount | python/AbcView/lib/abcview/widget/viewer_widget.py:422-426 | over integer bounds the count is last - first + 1, and 1 when last <= first |
| ViewerState.FrameSetToTwice | python/AbcView/lib/abcview/widget/viewer_widget.py:351-356 | setting the same frame a second time changes no scene, time, frame or bound |
| ViewerState.FrameSetToTwiceTimes | python/AbcView/lib/abcview/widget/viewer_widget.py:351-356 | setting the same frame a second time keeps the time, the frame and the bounds |
| ViewerState.StoredRangeOfStored | python/AbcView/lib/abcview/widget/viewer_widget.py:382-391 | once both bounds are set they are the range returned |
| ViewerState.StoredRangeUnset | python/AbcView/lib/abcview/widget/viewer_widget.py:378-391 | with a bound unset the range is the latest scene's minimum and the stored maximum, or else the first scene's maximum; with no scene it is 0 to 0 |
| ViewerState.NextTime | python/AbcView/lib/abcview/widget/viewer_widget.py:449-452 | a tick moves the time one frame on or back to the minimum, and never past a proper maximum |
| ViewerState.GLState.constructor | python/AbcView/lib/abcview/widget/viewer_widget.py:192-203 | a new state has the given rate, 24 frames per second by default, no scenes or cameras, unset bounds, time and frame 0 and is not playing |
| ViewerState.GLState.Clear | python/AbcView/lib/abcview/widget/viewer_widget.py:214-241 | no scenes, no cameras, unset bounds, time and frame 0, not playing, counter 0 |
| ViewerState.GLState.AddScene | python/AbcView/lib/abcview/widget/viewer_widget.py:259-273 | a scene is added as `WithScene` says, with the current time: a present scene is made visible again in place, a new one appended; anything else changes nothing; the list stays duplicate-free |
| ViewerState.GLState.RemoveScene | python/AbcView/lib/abcview/widget/viewer_widget.py:284-294 | the scene is marked invisible and the list loses it as `Without` says |
| ViewerState.GLState.AddCamera | python/AbcView/lib/abcview/widget/viewer_widget.py:296-306 | answers true exactly when the name was free, and only then registers the camera; a registered camera is never replaced |
| ViewerState.GLState.RemoveCamera | python/AbcView/lib/abcview/widget/viewer_widget.py:308-318 | a known name is deleted by name or by camera; an unknown name raises KeyError and changes nothing |
| ViewerState.GLState.GetCamera | python/AbcView/lib/abcview/widget/viewer_widget.py:320-326 | None exactly for an unknown name, otherwise the camera of that name |
| ViewerState.GLState.SetTime | python/AbcView/lib/abcview/widget/viewer_widget.py:331-344 | None changes nothing; otherwise the time is stored, the frame is time * fps and the visible scenes get the time |
| ViewerState.GLState.TimeRange | python/AbcView/lib/abcview/widget/viewer_widget.py:378-391 | set bounds are returned as they are; with no scenes (0, 0) is stored; both results are stored |
| ViewerState.GLState.FrameRange | python/AbcView/lib/abcview/widget/viewer_widget.py:415-420 | the time range scaled by the rate, with the range stored |
| ViewerState.GLState.SetFrame | python/AbcView/lib/abcview/widget/viewer_widget.py:351-356 | the frame is wrapped into the frame range, stored, and its time given to the visible scenes |
| ViewerState.GLState.SetFrameTime | python/AbcView/lib/abcview/widget/viewer_widget.py:356 | the stored frame is the frame given and the time is frame / fps |
| ViewerState.GLState.SetMinTime | python/AbcView/lib/abcview/widget/viewer_widget.py:363-364 | the minimum becomes the value |
| ViewerState.GLState.SetMaxTime | python/AbcView/lib/abcview/widget/viewer_widget.py:372-373 | the maximum becomes the value |
| ViewerState.GLState.SetMinFrame | python/AbcView/lib/abcview/widget/viewer_widget.py:396-400 | the minimum time becomes frame / fps, or unset for None |
| ViewerState.GLState.SetMaxFrame | python/AbcView/lib/abcview/widget/viewer_widget.py:407-411 | the maximum time becomes frame / fps, or unset for None |
| ViewerState.GLState.SetFramesPerSecond | python/AbcView/lib/abcview/widget/viewer_widget.py:199 | the rate becomes the value and the state stays valid |
| ViewerState.GLState.IsPlaying | python/AbcView/lib/abcview/widget/viewer_widget.py:428-432 | answers the playing flag |
| ViewerState.GLState.Play | python/AbcView/lib/abcview/widget/viewer_widget.py:434-442 | the timers run; the playing flag is left to the first tick |
| ViewerState.GLState.PlayTick | python/AbcView/lib/abcview/widget/viewer_widget.py:444-453 | playing is set, the counter goes up by one, the range is stored, the time moves as `NextTime` says and ends at or below a proper maximum, and the visible scenes get it |
| ViewerState.GLState.AdvanceTime | python/AbcView/lib/abcview/widget/viewer_widget.py:450-452 | one frame on, or back to the minimum once past the maximum; the scenes hold only the final time |
| ViewerState.GLState.Stop | python/AbcView/lib/abcview/widget/viewer_widget.py:455-465 | not playing, timers off, counter and measured rate 0 |
| ViewerState.GLState.FpsTick | python/AbcView/lib/abcview/widget/viewer_widget.py:467-472 | the measured rate is the frames counted, and the counter restarts at 0 |
| ViewerWidget.KeyMode | python/AbcView/lib/abcview/widget/viewer_widget.py:1239-1257 | exactly the keys 0-4 choose a mode, and each chooses a listed drawing mode |
| ViewerWidget.ApplyMode | python/AbcView/lib/abcview/widget/viewer_widget.py:1217-1222 | a selected scene takes the mode, and is loaded when the mode is not off; an unselected scene is unchanged; nothing else changes |
| ViewerWidget.ApplyToSelected | python/AbcView/lib/abcview/widget/viewer_widget.py:1213-1227 | only selected scenes change, and only in mode and loaded flag; a selected scene is loaded unless the mode is Off |
| ViewerWidget.ApplyToUnselected | python/AbcView/lib/abcview/widget/viewer_widget.py:1213-1227 | with no selected scene no scene changes |
| ViewerWidget.ApplyToSelectedKeepsIds | python/AbcView/lib/abcview/widget/viewer_widget.py:1213-1227 | the scene list stays duplicate-free |
| ViewerWidget.ModeLoop | python/AbcView/lib/abcview/widget/viewer_widget.py:1215-1222 | the loop reports whether any scene was selected and leaves the scenes as `ApplyToSelected` says |
| ViewerWidget.GLWidget.HandleSetMode | python/AbcView/lib/abcview/widget/viewer_widget.py:954-966 | a listed mode becomes the camera's mode; any other raises and changes nothing |
| ViewerWidget.GLWidget.ApplyToSelectedScenes | python/AbcView/lib/abcview/widget/viewer_widget.py:1213-1222 | the shared scenes change as `ApplyToSelected` says, and the answer says whether any was selected |
| ViewerWidget.GLWidget.SetSelectedSceneMode | python/AbcView/lib/abcview/widget/viewer_widget.py:1213-1227 | with a selection only the scenes change and the camera keeps its mode; without one only the camera changes, and an unknown mode raises with nothing changed; then the frame is set again |
| ViewerWidget.GLWidget.TogglePlayback | python/AbcView/lib/abcview/widget/viewer_widget.py:1234-1237 | playing, playback stops with the counters cleared and the timers off; otherwise the timers start and the counters are kept |
| ViewerWidget.GLWidget.KeyPress | python/AbcView/lib/abcview/widget/viewer_widget.py:1206-1265 | space does nothing without scenes and otherwise stops or starts playback, leaving the camera, frame and bounds alone; keys 0-4 set the mode and leave playback and its counters alone; the arrows set the frame one up or down through the wrap and leave the camera, playback and its counters alone; other keys change nothing |
| TreeWidget.Enumerated | python/AbcView/lib/abcview/widget/tree_widget.py:481 | the keys are exactly the positions, and each maps to its name |
| TreeWidget.EnumeratedSize | python/AbcView/lib/abcview/widget/tree_widget.py:481 | one entry per name |
| TreeWidget.Zipped | python/AbcView/lib/abcview/widget/tree_widget.py:482 | the keys are exactly the names |
| TreeWidget.ZippedDistinct | python/AbcView/lib/abcview/widget/tree_widget.py:482 | with duplicate-free names each name maps back to its own position |
| TreeWidget.ZippedSize | python/AbcView/lib/abcview/widget/tree_widget.py:482 | with duplicate-free names, one entry per name |
| TreeWidget.IntKeys | python/AbcView/lib/abcview/widget/tree_widget.py:502 | exactly the integer keys of the table |
| TreeWidget.Sorted | python/AbcView/lib/abcview/widget/tree_widget.py:502 | strictly ascending and holding exactly the elements of the set |
| TreeWidget.ColumnNames | python/AbcView/lib/abcview/widget/tree_widget.py:501-502 | the values under the integer keys, in ascending key order |
| TreeWidget.SortedSpan | python/AbcView/lib/abcview/widget/tree_widget.py:502 | sorting 0..n-1 gives 0, 1, ..., n-1 |
| TreeWidget.IntKeysOfDefault | python/AbcView/lib/abcview/widget/tree_widget.py:480-482 | the integer keys of a class's table are exactly its column positions |
| TreeWidget.ColumnNamesOfDefault | python/AbcView/lib/abcview/widget/tree_widget.py:480-502 | `column_names` gives back the column names, in order |
| TreeWidget.ColnumOfDefault | python/AbcView/lib/abcview/widget/tree_widget.py:497-502 | `colnum` finds each column at its position, `colnum(column_names[i]) == i`, and any other name gives -1 |
| TreeWidget.Colnum | python/AbcView/lib/abcview/widget/tree_widget.py:497-498 | a known column name gives one of the table's columns; an unknown name gives -1 |
| TreeWidget.ColumnCount | python/AbcView/lib/abcview/widget/tree_widget.py:552 | half the table's size is the number of columns |
| TreeWidget.ClassColumnsDistinct | python/AbcView/lib/abcview/widget/tree_widget.py:728-731 | every tree class names each of its columns once |
| TreeWidget.SliceStart | python/AbcView/lib/abcview/widget/tree_widget.py:96 | where Python's `a[first:]` starts, within the sequence |
| TreeWidget.EmitFrom | python/AbcView/lib/abcview/widget/tree_widget.py:96-101 | the enumeration emits no more pairs than elements, and a non-empty slice emits at least its first element with the first number |
| TreeWidget.Emissions | python/AbcView/lib/abcview/widget/tree_widget.py:92-103 | a run emits nothing exactly when the slice is empty; a scalar or unsliceable value emits its text once, numbered 0 |
| TreeWidget.EmitFromWindow | python/AbcView/lib/abcview/widget/tree_widget.py:96-101 | the enumeration emits consecutive numbers with their elements, all but the last below `last` |
| TreeWidget.EmissionsWindow | python/AbcView/lib/abcview/widget/tree_widget.py:92-103 | a run emits consecutive ascending numbers from `first`; it stops at the end of the slice or right after a number reaching `last`; a scalar or unsliceable value emits its text once, numbered 0 |
| TreeWidget.EmitWindow | python/AbcView/lib/abcview/widget/tree_widget.py:96-101 | the loop with its early exit emits what `EmitFrom` describes |
| TreeWidget.ArrayThread.constructor | python/AbcView/lib/abcview/widget/tree_widget.py:70-74 | the thread holds the payload and the window, and nothing is emitted yet |
| TreeWidget.ArrayThread.Run | python/AbcView/lib/abcview/widget/tree_widget.py:92-103 | a run appends exactly its emissions to what was sent |
| TreeItems.NewEntryItem | python/AbcView/lib/abcview/widget/tree_widget.py:389-399 | a new session or scene item is checked, shows the expand arrow and has no children yet |
| TreeItems.ObjectItemAsWrittenFails | python/AbcView/lib/abcview/widget/tree_widget.py:196-204 | building an object item as written always raises AttributeError, because the attributes the item holds at line 204 do not include `iObject` |
| TreeItems.NewObjectItem | python/AbcView/lib/abcview/widget/tree_widget.py:192-208 | an object item shows the expand arrow exactly when the object has children |
| TreeItems.EntryChild | python/AbcView/lib/abcview/widget/tree_widget.py:424-427 | a session entry gives at most one item, for that entry and removable |
| TreeItems.SessionChildren | python/AbcView/lib/abcview/widget/tree_widget.py:418-428 | a session builds at most one item per entry |
| TreeItems.SessionChildrenAppend | python/AbcView/lib/abcview/widget/tree_widget.py:419-429 | the items of a concatenation of entries are the items of its parts, in order |
| TreeItems.SessionChildrenClassify | python/AbcView/lib/abcview/widget/tree_widget.py:419-429 | each item built is a session item for a session file or a scene item for a scene file, and each such entry gets its item |
| TreeItems.ObjectChildren | python/AbcView/lib/abcview/widget/tree_widget.py:210-223 | one item per child object, in order, a camera item for a camera |
| TreeItems.AttachedDomain | python/AbcView/lib/abcview/widget/tree_widget.py:419-429 | attaching adds exactly the new numbers to the arena |
| TreeItems.AttachedParent | python/AbcView/lib/abcview/widget/tree_widget.py:419-429 | the new numbers are appended, in order, to the parent's children |
| TreeItems.AttachedNew | python/AbcView/lib/abcview/widget/tree_widget.py:419-429 | each new number holds a fresh item of its kind under the parent |
| TreeItems.AttachedOthers | python/AbcView/lib/abcview/widget/tree_widget.py:419-429 | every other item is unchanged |
| TreeItems.AttachedWellFormed | python/AbcView/lib/abcview/widget/tree_widget.py:419-429 | attaching keeps the arena well formed |
| TreeItems.AttachedKeeps | python/AbcView/lib/abcview/widget/tree_widget.py:419-429 | attaching keeps every old item with its parent and kind |
| TreeItems.AttachedValid | python/AbcView/lib/abcview/widget/tree_widget.py:419-429 | attaching keeps the tree's invariant |
| TreeItems.Mark | python/AbcView/lib/abcview/widget/tree_widget.py:786 | marking changes only the `seen` flag of the one item |
| TreeItems.WithLoaded | python/AbcView/lib/abcview/widget/tree_widget.py:401-411 | the entry becomes loaded and visible together, or neither, and keeps its name and file |
| TreeItems.Renamed | python/AbcView/lib/abcview/widget/tree_widget.py:657-660 | the entry takes the new name and keeps its file and loaded flag |
| TreeItems.Without | python/AbcView/lib/abcview/widget/tree_widget.py:764 | exactly the other numbers remain |
| TreeItems.WithoutDistinct | python/AbcView/lib/abcview/widget/tree_widget.py:764 | a duplicate-free list loses exactly one number when it holds it, and stays duplicate-free |
| TreeItems.SeenSessionDone | python/AbcView/lib/abcview/widget/tree_widget.py:427-429 | an expanded session answers its existing children and changes nothing |
| TreeItems.SessionChildrenDone | python/AbcView/lib/abcview/widget/tree_widget.py:419-429 | building a session's entries and marking it expanded is what `children` does |
| TreeItems.SceneChildrenDone | python/AbcView/lib/abcview/widget/tree_widget.py:469-470 | a scene builds one object item for the top of its archive, through the corrected object-item constructor |
| TreeItems.ObjectChildrenDone | python/AbcView/lib/abcview/widget/tree_widget.py:210-223 | an object builds one item per child the first time, through the corrected object-item constructor, and nothing once expanded |
| TreeItems.FailedChildrenDone | python/AbcView/lib/abcview/widget/tree_widget.py:419-429 | an item whose children cannot be built raises and leaves the arena as it was |
| TreeItems.AttachEntries | python/AbcView/lib/abcview/widget/tree_widget.py:421-426 | the loop over a session's entries attaches exactly the items `SessionChildren` lists, numbered in order |
| TreeItems.AttachObjects | python/AbcView/lib/abcview/widget/tree_widget.py:213-222 | the loop over an object's children attaches exactly the items `ObjectChildren` lists, numbered in order, built by the corrected object-item constructor |
| TreeItems.SessionChildrenOf | python/AbcView/lib/abcview/widget/tree_widget.py:419-429 | a session's `children` does what `ChildrenDone` says and keeps the tree's invariant |
| TreeItems.ObjectChildrenOf | python/AbcView/lib/abcview/widget/tree_widget.py:210-223 | an object's `children` does what `ChildrenDone` says, through the corrected object-item constructor, and keeps the tree's invariant |
| TreeItems.Created | python/AbcView/lib/abcview/widget/tree_widget.py:418-470 | an item already expanded builds nothing, a scene one object item; only a session or scene item can raise, and it raises AttributeError |
| TreeItems.ObjectTree.constructor | python/AbcView/lib/abcview/widget/tree_widget.py:736-739 | an empty tree |
| TreeItems.ObjectTree.AddTopLevelItem | python/AbcView/lib/abcview/app.py:991-995 | a new session or scene item goes at the root, after the others, under the next number |
| TreeItems.ObjectTree.NearestSceneIsNearest | python/AbcView/lib/abcview/widget/tree_widget.py:157-162 | the nearest scene is the first scene on the chain from the item to the root, and there is none exactly when no item on the chain is a scene |
| TreeItems.ObjectTree.SceneOf | python/AbcView/lib/abcview/widget/tree_widget.py:157-162 | the walk up the parents answers the nearest scene item, or None |
| TreeItems.ObjectTree.Load | python/AbcView/lib/abcview/widget/tree_widget.py:401-405 | the entry becomes loaded and visible and the item checked; nothing else changes |
| TreeItems.ObjectTree.Unload | python/AbcView/lib/abcview/widget/tree_widget.py:407-411 | the entry becomes unloaded and hidden and the item unchecked; nothing else changes |
| TreeItems.ObjectTree.AddChild | python/AbcView/lib/abcview/widget/tree_widget.py:784-785 | one item of the kind becomes the parent's last child under the next number |
| TreeItems.ObjectTree.SessionItemChildren | python/AbcView/lib/abcview/widget/tree_widget.py:419-429 | builds the entries' items once, marks the session expanded, and later answers the existing children |
| TreeItems.ObjectTree.SceneItemChildren | python/AbcView/lib/abcview/widget/tree_widget.py:469-470 | builds one object item for the top of the archive, through the corrected object-item constructor |
| TreeItems.ObjectTree.ObjectItemChildren | python/AbcView/lib/abcview/widget/tree_widget.py:210-223 | builds the children's items the first time, through the corrected object-item constructor, and nothing once expanded |
| TreeItems.ObjectTree.Children | python/AbcView/lib/abcview/widget/tree_widget.py:210-223 | `children` for every item class, as `ChildrenDone` says |
| TreeItems.ObjectTree.HandleItemExpanded | python/AbcView/lib/abcview/widget/tree_widget.py:780-786 | the first expansion builds the children and marks the item seen; a later one changes nothing |
| TreeItems.CreatedAsWritten | python/AbcView/lib/abcview/widget/tree_widget.py:469-470 | with the object-item constructor as written, a session still builds what `Created` says; when building raises, the half-built object item is the scene's or object's own child |
| TreeItems.ExpandAsWritten | python/AbcView/lib/abcview/widget/tree_widget.py:780-786 | as written, expansion keeps every item, and the item ends up expanded exactly when it expanded without raising; an expanded item changes nothing |
| TreeItems.SceneExpansionAsWrittenFails | python/AbcView/lib/abcview/widget/tree_widget.py:780-786 | as written, the first expansion of a scene raises AttributeError and leaves the scene unexpanded, with the half-built object item for its archive's top appended as its last child and nothing else changed |
| TreeItems.ObjectExpansionAsWrittenFails | python/AbcView/lib/abcview/widget/tree_widget.py:780-786 | as written, the first expansion of an object with a child raises AttributeError and leaves it unexpanded, with the half-built item for its first child appended as its last child and nothing else changed |
| TreeItems.SessionExpansionAsWritten | python/AbcView/lib/abcview/widget/tree_widget.py:780-786 | as written, expanding a session fails exactly as `Created` fails, and otherwise attaches its children and marks it seen |
| TreeItems.ObjectTree.RemoveItem | python/AbcView/lib/abcview/widget/tree_widget.py:758-771 | an item (given or first selected) leaves the root exactly when it has no parent and is a session or scene; otherwise nothing changes |
| TreeItems.ObjectTree.HandleItemDoubleClicked | python/AbcView/lib/abcview/widget/tree_widget.py:590-609 | the item is remembered; a session or scene gets an editor holding its name as the old value |
| TreeItems.ObjectTree.HandleDoneEditing | python/AbcView/lib/abcview/widget/tree_widget.py:627-667 | an unchanged text keeps the name, a changed one renames; the editor leaves and no item is remembered |
| TreeItems.DoneEditingName | python/AbcView/lib/abcview/widget/tree_widget.py:657-667 | after an edit the name is the final text, whether or not it changed |
| Version.Split | python/AbcView/lib/abcview/app.py:1546 | at least one piece, and no piece holds the separator |
| Version.JoinSplit | python/AbcView/lib/abcview/app.py:1546 | joining the pieces gives the string back |
| Version.SplitJoin | python/AbcView/lib/abcview/app.py:1546 | splitting joined pieces that hold no separator gives the pieces back |
| Version.ParseInt | python/AbcView/lib/abcview/app.py:1547 | `int()` succeeds exactly on optionally signed digit strings, with their decimal value, and raises ValueError otherwise |
| Version.ParseShowNat | python/AbcView/lib/abcview/app.py:1547 | reading back the digits of a number gives the number |
| Version.VersionCheckAsWritten | python/AbcView/lib/abcview/app.py:1546-1555 | anything but three pieces raises ValueError; otherwise 0 or 1 |
| Version.VersionCheckAsWrittenMeaning | python/AbcView/lib/abcview/app.py:1540-1555 | version a.b.c passes exactly when a >= 1 and b >= 5, each on its own |
| Version.VersionCheckAsWrittenRejectsNewer | python/AbcView/lib/abcview/app.py:1547 | 2.0.0 is turned away |
| Version.VersionCheck | python/AbcView/lib/abcview/app.py:1535-1555 | anything but three pieces raises ValueError; otherwise 0 or 1 |
| Version.VersionCheckMeaning | python/AbcView/lib/abcview/app.py:1535-1555 | version a.b.c passes exactly when (a, b) is at least (1, 5) in version order |
| Version.VersionCheckMonotone | python/AbcView/lib/abcview/app.py:1535-1555 | every version at or after a passing one passes |
| Version.VersionCheckAcceptsNewer | python/AbcView/lib/abcview/app.py:1535-1555 | 2.0.0 passes the intended gate, and 1.5.0 passes both |
| Scripts.GetDocs | python/AbcView/lib/abcview/app.py:291-324 | the declared name when there is one, else the file name; empty texts for an unreadable file |
| Scripts.Meta | python/AbcView/lib/abcview/app.py:341-349 | an entry's file path is the directory joined with the file name |
| Scripts.IsScript | python/AbcView/lib/abcview/app.py:337-340 | a script is a `.py` file other than `__init__.py` |
| Scripts.Collected | python/AbcView/lib/abcview/app.py:335-349 | every collected script is filed under its own name |
| Scripts.Found | python/AbcView/lib/abcview/app.py:326-350 | nothing is found for an empty path or a path that is not a directory; otherwise every script is filed under its own name |
| Scripts.CollectedFromScripts | python/AbcView/lib/abcview/app.py:335-349 | every entry found comes from a Python file other than `__init__.py` and is filed under its own name |
| Scripts.CollectedLastWins | python/AbcView/lib/abcview/app.py:335-349 | a script is found as it is when no later script takes its name |
| Scripts.FindScripts | python/AbcView/lib/abcview/app.py:326-350 | None for an empty path or a non-directory; otherwise the scripts of the walk by name, the later winning |
| Scripts.MergedKeys | python/AbcView/lib/abcview/app.py:367-372 | a name is in the merge exactly when the built-in directory or some user directory has it |
| Scripts.Merged | python/AbcView/lib/abcview/app.py:367-372 | the merged scripts keep every built-in name |
| Scripts.MergedUserWins | python/AbcView/lib/abcview/app.py:370-372 | the last user directory with a name decides its entry |
| Scripts.MergedKeepsBuiltin | python/AbcView/lib/abcview/app.py:367-372 | a name no user directory has keeps its built-in entry |
| Scripts.RefreshScripts | python/AbcView/lib/abcview/app.py:367-375 | the built-in scripts updated by each user directory in turn; a missing built-in directory raises AttributeError |
| FileKinds.EndsWith | python/AbcView/lib/abcview/app.py:957-961 | a name ends with a suffix exactly when cutting the suffix's length off its end and putting the suffix back gives the name |
| Cli.Options | bin/AbcView/main.cpp:19-20 | the options are arguments starting with a dash |
| Cli.IsOption | bin/AbcView/main.cpp:19 | an argument is an option exactly when its first character is `-` |
| Cli.Files | bin/AbcView/main.cpp:21-22 | the files are arguments not starting with a dash |
| Cli.PartitionCounts | bin/AbcView/main.cpp:18-23 | every argument lands in exactly one list: the counts add up |
| Cli.PartitionMultiset | bin/AbcView/main.cpp:18-23 | together the lists hold the arguments, each as often as it occurs |
| Cli.OptionsMembers | bin/AbcView/main.cpp:19-22 | an argument is an option exactly when it starts with a dash, and a file otherwise, an empty one included |
| Cli.OptionsInOrder | bin/AbcView/main.cpp:18-23 | the options keep their relative order |
| Cli.FilesInOrder | bin/AbcView/main.cpp:18-23 | the files keep their relative order |
| Cli.Partition | bin/AbcView/main.cpp:18-23 | the loop starts after the program name and builds exactly `Options` and `Files` of the rest |
| Cli.MainWindow.AddScene | bin/AbcView/main.cpp:26 | the file is added as the last scene |
| Cli.AddScenes | bin/AbcView/main.cpp:25-27 | one scene per file, in file order |
| Cli.Start | bin/AbcView/main.cpp:18-27 | the files of the command line become scenes, in order, and no option does |
| App.Trunc | python/AbcView/lib/abcview/app.py:979 | `int()` on a number drops the fraction toward zero |
| App.TruncMagnitude | python/AbcView/lib/abcview/app.py:979 | `int()` moves no number away from zero and keeps whole numbers |
| App.Decorated | python/AbcView/lib/abcview/app.py:75-91 | both the marking-dirty and the marking-clean wrapper answer what the handler answers, on every input |
| App.DecoratorsKeepDirtyFlag | python/AbcView/lib/abcview/app.py:75-91 | a decorated handler leaves the dirty flag as the handler does |
| App.NewCamera | python/AbcView/lib/abcview/app.py:1206-1207 | the interactive camera is never added to the session; any other is |
| App.SetCamera | python/AbcView/lib/abcview/app.py:1216-1217 | the interactive camera is never set on the session; any other is |
| App.AcceptedRejectedCount | python/AbcView/lib/abcview/app.py:908-916 | each file is either added or reported, never both |
| App.RejectedMembers | python/AbcView/lib/abcview/app.py:908-916 | a path is reported exactly when it is one of the files and cannot be loaded |
| App.Accepted | python/AbcView/lib/abcview/app.py:907-916 | no more files are added than were given |
| App.Rejected | python/AbcView/lib/abcview/app.py:907-916 | no more files are reported than were given, and each reported file cannot be loaded |
| App.AllRejected | python/AbcView/lib/abcview/app.py:919-924 | every file is reported exactly when none can be loaded |
| App.BailsOut | python/AbcView/lib/abcview/app.py:919-924 | the load bails out exactly when it is not a single session file, there is a file, and every file is rejected |
| App.AddFiles | python/AbcView/lib/abcview/app.py:907-916 | the readable files are appended in order and the others reported in order |
| App.FileRange | python/AbcView/lib/abcview/app.py:951-964 | frames 0 to 100 unless a single file gives the range; only a single scene file can fail |
| App.RangeSlider | python/AbcView/lib/abcview/app.py:950-963 | the slider shows 0 to 100 frames, or the single file's range in frames; a failed range leaves it at 0 to 100 |
| App.FpsAfter | python/AbcView/lib/abcview/app.py:966-969 | the rate is the session's or the override's, and stays positive |
| App.OverriddenSlider | python/AbcView/lib/abcview/app.py:970-981 | each truthy override sets its part of the slider, the current frame truncated |
| App.SliderShowsRange | python/AbcView/lib/abcview/app.py:950-981 | after a successful range and the overrides, the slider's minimum and maximum are the viewer's bounds in frames (for each bound that was overridden, or when the rate was not) and a truthy current frame is its value, truncated |
| App.BoundAfter | python/AbcView/lib/abcview/app.py:970-977 | a truthy frame override sets the bound at that frame; 0 or none keeps it |
| App.Clamp | python/AbcView/lib/abcview/app.py:984-987 | the time is kept or becomes one of the bounds |
| App.ClampWithin | python/AbcView/lib/abcview/app.py:984-987 | within a proper range the time ends in the range, and a time already in it is kept |
| App.Planted | python/AbcView/lib/abcview/app.py:990-998 | each session item gets a root tree item of its class, loaded when the item is |
| App.PlantedAllShape | python/AbcView/lib/abcview/app.py:990-998 | the new numbers hold the items in order and nothing else changes |
| App.PlantedAll | python/AbcView/lib/abcview/app.py:990-998 | planting the tree items keeps every existing item |
| App.Opened | python/AbcView/lib/abcview/app.py:902-916 | a single session file replaces the session; otherwise the loadable files are added to it |
| App.LoadedTimeInRange | python/AbcView/lib/abcview/app.py:978-987 | after loading, the time lies in a proper range |
| App.TimeAfterOverrides | python/AbcView/lib/abcview/app.py:978-981 | a truthy current-frame override sets the time at the wrapped, truncated frame; otherwise the time stays |
| App.AbcView.constructor | python/AbcView/lib/abcview/app.py:490-494 | no overrides, nothing to load, the viewer enabled |
| App.AbcView.SetDefaultMode | python/AbcView/lib/abcview/app.py:784-792 | the mode override becomes the value |
| App.AbcView.SetFirstFrame | python/AbcView/lib/abcview/app.py:794-800 | the override is recorded, the minimum time becomes frame / fps and the slider's minimum the frame |
| App.AbcView.SetLastFrame | python/AbcView/lib/abcview/app.py:802-808 | the override is recorded, the maximum time becomes frame / fps and the slider's maximum the frame |
| App.AbcView.SetFramesPerSecond | python/AbcView/lib/abcview/app.py:810-814 | the override, the session and the viewer all take the rate |
| App.AbcView.SetCurrentFrame | python/AbcView/lib/abcview/app.py:816-822 | the override is recorded and the frame set as once: the second setting changes nothing |
| App.AbcView.SetLoadFiles | python/AbcView/lib/abcview/app.py:824-832 | the load list becomes the files |
| App.AbcView.HandleNewCamera | python/AbcView/lib/abcview/app.py:1198-1207 | the session changes as `NewCamera` says and its dirty flag does not |
| App.AbcView.HandleSetCamera | python/AbcView/lib/abcview/app.py:1209-1217 | the session changes as `SetCamera` says and its dirty flag does not |
| App.AbcView.SetFramesFromSession | python/AbcView/lib/abcview/app.py:838-851 | the viewer takes the session's range and time, the slider its frames |
| App.AbcView.SetFramesFromScene | python/AbcView/lib/abcview/app.py:853-864 | a scene sets the range and the slider; anything else fails the assertion and changes nothing |
| App.AbcView.ApplyOverrides | python/AbcView/lib/abcview/app.py:965-981 | each override applies only when truthy, to the viewer state and to the time slider alike; a current frame is truncated and set through the wrapping frame setter, and becomes the slider's value |
| App.AbcView.ClampTime | python/AbcView/lib/abcview/app.py:983-987 | the time becomes `Clamp` of itself; a moved time is given to the visible scenes |
| App.AbcView.Load | python/AbcView/lib/abcview/app.py:892-1005 | the bad files are reported; a failed session read fails; all files bad bails out with the viewer enabled and nothing else changed; otherwise the range, overrides and clamp are applied and every session item gets a root tree item; the slider is untouched on the early exits and otherwise shows the range and the overrides |
| App.AbcView.ReadFiles | python/AbcView/lib/abcview/app.py:902-916 | a single session file replaces the session; otherwise the files are added or reported |
| App.AbcView.SetRange | python/AbcView/lib/abcview/app.py:950-963 | frames 0 to 100 at the session's rate on the state and the slider, then the single file's range; when the scene file's range cannot be read the failure is reported with the rate set and the range left at 0 to 100 frames; with several files the time and the scenes are untouched |
| App.AbcView.AdjustTime | python/AbcView/lib/abcview/app.py:965-987 | the overrides and the clamp as `Adjusted` describes; the slider takes the truthy overrides |
| App.AbcView.Populate | python/AbcView/lib/abcview/app.py:950-987 | the viewer's rate, range and time and the slider as `Populated` describes, including the state left behind when the range fails |
| App.AbcView.FillViewer | python/AbcView/lib/abcview/app.py:950-1004 | the viewer and the slider are filled, the tree built and the viewer enabled, unless the range fails, which leaves the session as read and the range at 0 to 100 frames |
| App.AbcView.BuildTrees | python/AbcView/lib/abcview/app.py:989-998 | a root tree item per session item, in order, loaded when the item is |

## Left out

- OpenGL drawing and picking, camera motion, trackball arithmetic and colours are left out: they are floating-point work through a foreign API.
- Qt plumbing is left out: signals, timer intervals, menus, dialogs, the splash screen, cursors, the window title and saved settings. A timer callback is a plain method here.
- `ArrayThread` threading is left out; only the pairs `run` emits are modelled.
- The `abcview.io` and `abcview.gl` classes (`Session`, `GLScene`, `GLCamera`) are not part of this model. Scenes, cameras and sessions are value records, so aliasing between one scene object and the lists that hold it is not captured.
- `io2gl`, the session walk that registers cameras, and the colour and mode overrides it applies to each GL object (app.py:926-948) are left out, because they act on the opaque GL objects.
- `viewer.frame()` after a single scene file (app.py:1000-1002) is left out: it is camera framing.
- The file system is handed in as values. `Disk` holds the regular files, the readable files and the sessions the reader opens. A script directory's walk is a list of (directory, file) pairs. `os.path.join` always uses "/".
- `get_docs` does not parse Python here: what it reads from each file is given as a map, and a file it cannot parse is absent from it.
- Building the Scripts menu and running scripts are left out.
- The other trees are left out: the property, sample and array trees, `find`, `selected`, `handle_item_clicked`, the editable property items and the context menus. So are the viewer split and unsplit.
- The scene-derived branch of `time_range` is modelled as written under Python 2 ordering. When the bounds are set, or there are no scenes, it is exact.
- `frame_count` is modelled over integer bounds only; Python's `range` does not accept the float bounds the viewer holds.
- Scene ids, camera names and file suffixes are values chosen by the model, not Python identities. The session and scene suffixes are the constants "io" and "abc".
- App.AbcView.Load: assumes the frames-per-second override is positive when set, and that every session the reader opens has a positive rate (`ValidDisk`); the source divides by them.
- Version.ParseInt: Python 2's `int()` also accepts surrounding whitespace; such parts are rejected here.
- TreeWidget.ArrayThread.Run: the window's last index is a number here. When it is None, Python 2 orders every number after None, so `run` emits only the first pair; that case is not modelled.
- TreeItems.SceneChildrenDone: models the corrected object-item constructor (tree_widget.py:192-208), so a scene builds its top object item. The code as written raises AttributeError at tree_widget.py:204; that is modelled by TreeItems.ExpandAsWritten and stated by TreeItems.SceneExpansionAsWrittenFails.
- TreeItems.ObjectTree.SceneItemChildren: builds the scene's item with the corrected object-item constructor; as written it raises AttributeError, see TreeItems.SceneExpansionAsWrittenFails.
- TreeItems.ObjectTree.Children: the scene and object branches use the corrected object-item constructor; as written a scene, and an object with a child, raise AttributeError (TreeItems.CreatedAsWritten).
- TreeItems.ObjectTree.HandleItemExpanded: expands with the corrected object-item constructor; as written the first expansion of a scene raises, leaves it unexpanded and a half-built object item under it, and every later expansion adds another (TreeItems.SceneExpansionAsWrittenFails).
- TreeItems.ObjectTree.ObjectItemChildren: builds the object's children with the corrected object-item constructor; as written the first child's constructor raises AttributeError after attaching it, see TreeItems.ObjectExpansionAsWrittenFails.
- TreeItems.ObjectChildrenDone: states the children built by the corrected object-item constructor; as written a first build with a child raises, see TreeItems.ObjectExpansionAsWrittenFails.
- TreeItems.ObjectChildrenOf: builds an object's children with the corrected object-item constructor; the as-written raise is TreeItems.ObjectExpansionAsWrittenFails.
- TreeItems.AttachObjects: attaches items built by the corrected object-item constructor; as written the first one raises, see TreeItems.ObjectExpansionAsWrittenFails.
- TreeItems.ObjectTree.HandleDoneEditing: editable property items, whose `formatted()` raises, are not modelled; only session and scene renaming is.

## Findings

| source | as written | input that shows it | evidently intended | confidence | as-written member | corrected member |
|---|---|---|---|---|---|---|
| python/AbcView/lib/abcview/app.py:1547 | major and minor are each compared with 1 and 5 on their own | Alembic version "2.0.0": 2 >= 1 but 0 < 5, so the check answers 0 | accept every version at or after 1.5 in version order | high; not executed | Version.VersionCheckAsWrittenRejectsNewer | Version.VersionCheckMeaning |
| python/AbcView/lib/abcview/widget/tree_widget.py:204 | the object item reads `self.iObject`, an attribute that is never set | expanding any scene item, which builds an object item for the archive's top: AttributeError, with the half-built item left under the scene | show the expand arrow when the object passed in has children | high; not executed | TreeItems.SceneExpansionAsWrittenFails | TreeItems.NewObjectItem |
