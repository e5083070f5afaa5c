# Verified models of the editor, the selector engine, the callback lists and the graph

The web interface under `src/main/webapp/ui/js` rests on four pieces of code with real algorithms in them. This project models
them in Dafny and proves what they promise.

**The document of the editor** (`codemirror.js`). The lines live in a tree of chunks that is changed in place. `ChunkTree` holds
the objects, `ChunkStore`, `ChunkRemoval` and `ChunkHeights` state the invariant of the tree on a value that records all fields
at one moment and prove what each structural step does to it, and `Document`, `Lookup` and `Iteration` give the operations on
the sequence of lines: insert, remove, look up by number and by height, iterate. `TextEdit` replaces a range of the text on that
tree, in the structural cases of the source, and `Text` says what that means for the joined text. `History` is the undo history
as a state machine, `CompoundChange` says what one undo does to a compound change, `UndoHistory` is the object that keeps the
history, and `TextHistory` relates histories of lines with marks to histories of texts. `Marks` is about range markers, `Coverage`
about the characters that they cover before and after an edit, `SpanLists` and `SharedMarks` about the lists in which lines
keep their spans and which they can share, `Positions` about offsets, `Display` about the list of DOM nodes, and `Editor`
puts all of it together: edits, undo, redo, the longest-line cache and the log of changes that the display works from.
`Fragments`, `MarkSweep`, `Sparql`, `SparqlTokens` and `LineContent` follow a line to the screen: highlighted by the SPARQL
mode, whose tokens are described by their characters, and put together with its marks.

**The selector engine** (`jquery-1.9.1.js`), in `Selector`. Token lists are compiled into matchers whose walks along ancestors
and siblings are memoised on the nodes. Matchers are data here, and the notes on the nodes are a field of `Memo`.

**Callback lists and deferreds** (`jquery-1.9.1.js`), in `Callbacks` and `Deferred`. Callbacks may call back into the list that
is firing. A list is therefore modelled by its steps: a call of an operation, or the return of the callback that is running.
`CallbackList` and `DeferredObject` have the fields of the source and take these steps. Each callback that is added gets a
number; `added` tells which function it stands for.

**The graph index** (`springy.js`), in `Springy`.

## How to read it

- A tree operation is proved in two layers. A method changes fields and states the new fields; a lemma on the recorded values
  says that the invariant holds again. `Owed` and the sets `busy` and `over` say which chunks are out of step in the middle of
  an operation. One class `Chunk` stands for both kinds of chunk, told apart by the constant `leaf` as the source does by the
  presence of `lines`.
- `true == (...)` around the body of a predicate, and quantifiers with an explicit trigger such as the one in `Doc.Valid`, keep
  the verifier from looking into a definition where it is not needed.
- The lists of spans are objects of the source that lines and history entries refer to. They are numbered here: a line as it is
  kept (`Stored`) has the number of its list, the editor's field `lists` has the spans, and a line as it looks (`Look`) has the
  spans themselves.
- `History` speaks of documents of any element type. The editor's history is that of its texts.
- The relations of `Deferred` let the steps of the three lists come in any order in which no step overtakes a callback of the
  deferred itself. The nested calls of a real run are among these orders.
- A display node is the line that it renders; a filter of a selector is the set of nodes that pass it; a callback is a value
  that can be compared.

To verify the project: `dafny verify dfyconfig.toml`.

## Where code and documentation differ

- `compoundChange` promises one undoable unit, but one undo can do more or less than that. A compound without an edit adds
  nothing to the history, so that the undo takes back what came before it; with an undo depth of 0 nothing can be taken back;
  and when the function undoes its own edit, further edits join the set below, which the undo then takes back as well.
  `CompoundUndo` gives the exact condition, in numbers of sets, and `EditUndoEdit`, `EditUndo`, `NoEdit` and `DepthZero` are
  examples.
- A new marker is meant to cover its range. The inner lines of a multi-line insertion share one list of spans, into which
  `markText` pushes, so that the marker can appear on lines outside its range, which are not redrawn. `MarkText` and
  `MarkedIfUnshared` give the exact condition, `MarkOnInsertedLine` an example.
- A marker is meant to keep covering the characters that survive an edit. When lines share their spans a line can have several
  spans of one marker, and an edit joins what sticks out before the range with the first span that ends behind it. So typing
  before a marker can make it cover more of the line (`JoinedToWrongSpan`, within one operation, before the line is drawn and
  its spans sorted), and a deletion between two copies of a marker can uncover a character (`CutBetweenCopies`). This touches
  only characters behind the range, on its last line, when the new text has one line; `CoverageSurvives` gives the exact
  condition there, `CoverageInserted` that for inserted characters. A marker that covers one range keeps its coverage
  (`RangeSurvives`, `RangeInserted`).
- `markText` clips the ends of its range but does not put them in order. With the end given first on the same line it leaves a
  span that ends before it begins, with which the sweep of `getContent` goes back in the text and need not come to an end; with
  the end on an earlier line it marks nothing and logs a change that ends before it begins, unless the end is on the line just
  before the start. `MarkText` states what is left, and when the editor is still in order; `EndGivenFirst` shows what such a
  change does to the display.
- `addEdge` does not advance the numbers that `newEdge` gives, so that a number can be given twice; an edge whose id is in use
  for other ends goes to the index and not to the list. `AddedAgrees` gives the exact condition, `NumberGivenTwice` an example.
- `refresh` in the middle of an operation redraws the lines but keeps the log of changes, which is applied once more at the end
  of the operation. `OverlayRight` and `RedrawnMidway` give the exact condition, `RedrawnTooEarly` an example.
- A marker whose two ends both lie in the replaced range, ends included, disappears, also one that is empty and lies exactly at
  the place of an insertion. `Marks.MarkMoves` states exactly when.

## Model

| member | source | states |
|---|---|---|
| Document.Doc.constructor | src/main/webapp/ui/js/codemirror.js:71 | a new document is a tree that holds one line, the empty one |
| Document.Doc.Insert | src/main/webapp/ui/js/codemirror.js:2747-2794 | inserting splices the new lines into the sequence of lines at the given place, and the whole invariant of the tree (sizes, heights, parents, limits of 50 lines and 10 children) holds again, through every spill and every split up to the root |
| Document.Doc.Remove | src/main/webapp/ui/js/codemirror.js:2724-2746 | removing cuts exactly the given lines out of the sequence and detaches them; the invariant holds again, empty children dropped and small subtrees collapsed into one leaf |
| Document.Shape | src/main/webapp/ui/js/codemirror.js:2676-2722 | in every valid document each chunk keeps its limit, parents point back, a branch's size and contents are those of its children, and a cached height is the sum of the heights of the lines below |
| ChunkTree.Chunk.LeafInsertHeight | src/main/webapp/ui/js/codemirror.js:2700-2704 | a leaf takes the new lines; only the leaf may now be too long |
| ChunkTree.Chunk.BranchInsertHeight | src/main/webapp/ui/js/codemirror.js:2752-2773 | insertion below a branch, with the spilling of leaves that are too long, keeps the invariant of the whole tree; terminates by depth |
| ChunkTree.Chunk.SpillLeaves | src/main/webapp/ui/js/codemirror.js:2759-2768 | the loop that moves 25 lines at a time to new leaves until the leaf is within its limit |
| ChunkTree.Chunk.MaybeSpill | src/main/webapp/ui/js/codemirror.js:2774-2794 | splitting a branch with too many children, and then its ancestors up to a new top below the root, terminates and restores all limits; the lines of the document stay as they are |
| ChunkTree.Chunk.BranchRemove | src/main/webapp/ui/js/codemirror.js:2724-2743 | removal below a branch while its ancestors are out of step: its own lines are cut, everything outside is untouched, small subtrees end as one leaf |
| ChunkTree.Chunk.LeafRemove | src/main/webapp/ui/js/codemirror.js:2687-2696 | a leaf loses the lines and their heights, and the lines lose their parent |
| ChunkTree.Chunk.CollectLines | src/main/webapp/ui/js/codemirror.js:2697-2699 | collapsing collects exactly the lines below, in order |
| ChunkStore.LeafSpilled | src/main/webapp/ui/js/codemirror.js:2759-2766 | moving the tail of a leaf to a new sibling keeps the invariant of every other chunk |
| ChunkStore.BranchSpilled | src/main/webapp/ui/js/codemirror.js:2777-2792 | moving the last children of a branch to a new sibling keeps the invariant of every other chunk |
| ChunkStore.RootSpilled | src/main/webapp/ui/js/codemirror.js:2780-2784 | the root becomes the parent of its two halves and keeps its identity, size, height and lines |
| ChunkRemoval.LeafRemoved | src/main/webapp/ui/js/codemirror.js:2687-2696 | while its ancestors are out of step, a leaf that loses lines is in step again, and so is every other chunk |
| ChunkRemoval.ChildRecorded | src/main/webapp/ui/js/codemirror.js:2729-2731 | after a child has lost lines the branch's record of it is right again and nothing else was disturbed |
| ChunkRemoval.ChildDropped | src/main/webapp/ui/js/codemirror.js:2732 | dropping an empty child keeps the invariant |
| ChunkRemoval.WalkTake | src/main/webapp/ui/js/codemirror.js:2726-2736 | the walk over the children removes the right lines from each child, whether it drops the child or goes on to the next |
| ChunkRemoval.Collapsed | src/main/webapp/ui/js/codemirror.js:2737-2742 | replacing a whole subtree by one leaf keeps the invariant and the lines |
| ChunkHeights.HeightIsSum | src/main/webapp/ui/js/codemirror.js:2713-2719 | a cached height is the sum of the heights of the lines below, at any depth |
| ChunkHeights.AttachedAreContents | src/main/webapp/ui/js/codemirror.js:2679-2681 | the lines that name a leaf as their parent are exactly the lines of the document |
| Lookup.GetLineAt | src/main/webapp/ui/js/codemirror.js:2809-2818 | descending by sizes finds line n of the sequence |
| Lookup.LineNo | src/main/webapp/ui/js/codemirror.js:2819-2829 | climbing from a line adds up to its index in the sequence; null for a detached line |
| Lookup.LineNoOfLineAt | src/main/webapp/ui/js/codemirror.js:2809-2829 | the number of the line found at n is n |
| Lookup.HeightAtLine | src/main/webapp/ui/js/codemirror.js:2848-2861 | the height above line n is the sum of the heights of the lines before it |
| Lookup.LineAtHeight | src/main/webapp/ui/js/codemirror.js:2830-2847 | the line found at height h is the one whose stretch contains h, lines of height 0 included; past the end it is the number of lines |
| Lookup.HeightsGrow | src/main/webapp/ui/js/codemirror.js:2848-2861 | heights above lines never decrease with the line number |
| Lookup.UpdateLineHeight | src/main/webapp/ui/js/codemirror.js:372-376 | a changed line height is carried to all ancestors, so that the invariant holds again |
| Iteration.Iter | src/main/webapp/ui/js/codemirror.js:2795-2806 | the walk visits exactly the lines of the stretch, in order |
| TextEdit.ReplaceText | src/main/webapp/ui/js/codemirror.js:756-792 | all structural cases of the edit give the same result: the lines of the range give way to the new ones, sewn to what is left of the first and of the last line; which line objects survive, and where; new lines are of height 1 and all others keep their height |
| TextEdit.NewLines | src/main/webapp/ui/js/codemirror.js:2483-2487 | new line objects with the given texts and spans, of height 1 |
| TextEdit.ExchangeHeight | src/main/webapp/ui/js/codemirror.js:756-792 | the height of the document after an edit is the old one, less the height of the lines that are gone, and one more for each new line |
| TextEdit.HeightsAfter | src/main/webapp/ui/js/codemirror.js:756-792 | the heights of all lines after an edit, in order |
| TextEdit.ReplaceWholeLines | src/main/webapp/ui/js/codemirror.js:762-770 | the whole-line case, in which the last line object is kept and moved |
| TextEdit.ReplaceInLine | src/main/webapp/ui/js/codemirror.js:771-780 | the cases within one line |
| TextEdit.ReplaceByOne | src/main/webapp/ui/js/codemirror.js:781-783 | several lines become one |
| TextEdit.ReplaceByMany | src/main/webapp/ui/js/codemirror.js:784-792 | several lines become several, both end lines kept |
| TextEdit.WholeLines | src/main/webapp/ui/js/codemirror.js:762-770 | the whole-line case on values is the replacement of the range |
| TextEdit.ManyForMany | src/main/webapp/ui/js/codemirror.js:784-792 | updating both end lines and swapping the middle is the replacement of the range |
| Text.ReplaceRangeJoins | src/main/webapp/ui/js/codemirror.js:390-394 | replacing a range of positions replaces, in the joined text, the characters between the two offsets |
| Text.JoinAt | src/main/webapp/ui/js/codemirror.js:390-394 | a position cuts the joined text at its offset |
| Text.JoinedLine | src/main/webapp/ui/js/codemirror.js:390-394 | each line stands in the joined text between the offsets of its ends, with a newline just before it unless it is the first |
| Editor.GetValue | src/main/webapp/ui/js/codemirror.js:390-394 | the value is the lines joined by newlines |
| Editor.EditedValue | src/main/webapp/ui/js/codemirror.js:756-792 | after an edit the value is the old text before `from`, the new lines joined, and the old text from `to` on |
| History.InverseAllReverts | src/main/webapp/ui/js/codemirror.js:730-745 | what `unredoHelper` collects takes the reversal of a set back |
| History.InverseAllTwice | src/main/webapp/ui/js/codemirror.js:730-745 | taking a set back twice yields the very same set of changes |
| History.MergeReverts | src/main/webapp/ui/js/codemirror.js:2883-2889 | the widened change that merges two touching edits undoes both at once |
| History.EditedGood | src/main/webapp/ui/js/codemirror.js:717-726 | every edit, in all branches of `addChange` and with trimming to the undo depth, keeps the chain of documents that undoing and redoing lead through |
| History.UndoneGood | src/main/webapp/ui/js/codemirror.js:730-747 | undoing leads to the document before, and both chains stay intact |
| History.RunGood | src/main/webapp/ui/js/codemirror.js:717-747 | in every state reached by edits, undos, redos and compound changes each set leads to the document it promises |
| History.UndoRedo | src/main/webapp/ui/js/codemirror.js:730-747 | undo followed by redo is the identity on the document and on the whole history, and so is redo followed by undo |
| History.EditPast | src/main/webapp/ui/js/codemirror.js:717-726 | after an edit undoing leads through the documents from before, and through the one before the edit exactly if the edit comes after 400 ms, or behind a compound or its beginning, or with a line between itself and the last change, or first of all; the newest `undoDepth` of them are kept, and there is nothing to redo |
| History.EditThenUndo | src/main/webapp/ui/js/codemirror.js:2872-2892 | so one undo after an edit takes back the edit alone, or the whole unit that it joined |
| History.TypedTwice | src/main/webapp/ui/js/codemirror.js:2879 | an example: two edits of a line are taken back together or one at a time, as the time between them is |
| CompoundChange.CompoundUndo | src/main/webapp/ui/js/codemirror.js:1974-1977 | for any function given to `compoundChange`, also one that undoes, redoes or opens compounds: one undo leads back to the document and the sets of before exactly if there is a set to undo and one set more than at the start, dropped ones counted in |
| CompoundChange.StepKeeps | src/main/webapp/ui/js/codemirror.js:717-747 | inside a compound, as long as the chain reaches above the start, undoing or redoing leads from every state back to the document and sets of the start, but for dropped ones |
| CompoundChange.NextTallies | src/main/webapp/ui/js/codemirror.js:2871-2898 | the numbers of sets that `IsUnit` counts are those of the history |
| CompoundChange.PlainUndo | src/main/webapp/ui/js/codemirror.js:1974-1977 | without undo and redo inside, the compound is taken back exactly if it contains an edit and the undo depth is positive; and what one undo does otherwise |
| CompoundChange.EditUndoEdit | src/main/webapp/ui/js/codemirror.js:1974-1977 | a compound of an edit, an undo and an edit: one undo goes past its start |
| CompoundChange.EditUndo | src/main/webapp/ui/js/codemirror.js:1974-1977 | so does one after a compound of an edit and an undo |
| CompoundChange.NoEdit | src/main/webapp/ui/js/codemirror.js:1974-1977 | and one after a compound without an edit |
| CompoundChange.DepthZero | src/main/webapp/ui/js/codemirror.js:725 | with an undo depth of 0 the edit stays |
| UndoHistory.UndoHistory.AddChange | src/main/webapp/ui/js/codemirror.js:2872-2892 | the history object records, groups or widens a change at a given time as the function does of which `EditPast` says when an edit opens a unit of its own |
| UndoHistory.Widen | src/main/webapp/ui/js/codemirror.js:2884-2889 | the loops that prepend and append old lines compute the merged change |
| UndoHistory.UndoHistory.Trim | src/main/webapp/ui/js/codemirror.js:725 | the oldest sets are dropped until at most `undoDepth` are left |
| UndoHistory.UndoHistory.StartCompound | src/main/webapp/ui/js/codemirror.js:2893-2895 | the outermost compound closes the last set |
| UndoHistory.UndoHistory.EndCompound | src/main/webapp/ui/js/codemirror.js:2896-2898 | so does its end |
| TextHistory.RevertAllText | src/main/webapp/ui/js/codemirror.js:730-745 | reverting changes of lines with marks reverts the text in the same way |
| TextHistory.AddChangeText | src/main/webapp/ui/js/codemirror.js:2872-2892 | recording a change of lines with marks records the change of the text |
| Editor.Editor.constructor | src/main/webapp/ui/js/codemirror.js:92-98 | a new editor has one empty line, no history and a longest line that can be relied on |
| Editor.Editor.UpdateLines | src/main/webapp/ui/js/codemirror.js:717-729 | on the tree of lines an edit is the edit step of the history's state machine, marks are kept up to date, every line has its old height or, if it is new, height 1, the height of the document follows, and all invariants of the editor hold again |
| Editor.Editor.UpdateLinesNoUndo | src/main/webapp/ui/js/codemirror.js:749-817 | the edit of the tree together with the longest-line cache and the log of changes for the display |
| Editor.Editor.TakeBack | src/main/webapp/ui/js/codemirror.js:732-742 | replacing the added lines as a range by the old ones takes a change back, and the recorded inverse is right |
| Editor.Editor.UnredoHelper | src/main/webapp/ui/js/codemirror.js:730-745 | a whole set is taken back, last change first |
| Editor.Editor.Undo | src/main/webapp/ui/js/codemirror.js:746 | undo on the tree of lines is the undo step of the state machine |
| Editor.Editor.Redo | src/main/webapp/ui/js/codemirror.js:747 | redo likewise |
| Editor.UndoAndRedo | src/main/webapp/ui/js/codemirror.js:746-747 | undo and then redo lead back to the same text and history |
| Editor.MaxKept | src/main/webapp/ui/js/codemirror.js:751-755 | after an edit the cached longest line is right, or it is marked as out of date exactly when a line as long as it was touched and no longer one was found |
| Editor.EditLongest | src/main/webapp/ui/js/codemirror.js:751-808 | the whole edit with this bookkeeping: the cache is marked as out of date exactly if it was so before, or a line of its length lay in the range and no new line is longer |
| Editor.ComputeMaxLength | src/main/webapp/ui/js/codemirror.js:868-878 | the full scan finds a longest line |
| Editor.MaxLineIsLongest | src/main/webapp/ui/js/codemirror.js:801-808 | unless it is out of date, the cached line is attached and no line is longer |
| Editor.Editor.EndOperation | src/main/webapp/ui/js/codemirror.js:1924-1940 | whatever the nodes show at the end of an operation: the longest line is repaired, the nodes that the log says are intact are kept and the others drawn, and the BAD PATCH error is not raised; if all nodes showed the lines as they were before the first logged change, they show the text |
| Editor.Editor.Refresh | src/main/webapp/ui/js/codemirror.js:360-364 | a redraw shows the text, and is in step with the log if nothing has been logged |
| Editor.Editor.ScrollTo | src/main/webapp/ui/js/codemirror.js:339-343 | moving the window takes the nodes for right, also when changes are pending |
| Display.OverlayRight | src/main/webapp/ui/js/codemirror.js:1056-1073 | after an update the display is right if and only if each node that is kept shows the line for which the log keeps it |
| Display.LedRight | src/main/webapp/ui/js/codemirror.js:1056-1073 | which is so if the nodes showed the lines as they were before the first change of the log |
| Display.RedrawnMidway | src/main/webapp/ui/js/codemirror.js:360-364 | nodes drawn anew after some of the changes: the end of the operation leaves them right exactly if each line for which the whole log keeps a node is the one that the node shows, and this holds if the log and its later part agree on these nodes |
| Display.RedrawnTooEarly | src/main/webapp/ui/js/codemirror.js:1924-1940 | an example: the logged change is applied a second time, and the display shows line 1 twice |
| Display.EndGivenFirst | src/main/webapp/ui/js/codemirror.js:1130-1151 | what a marker whose end is given first does to the display: the intact ranges overlap and have more lines than there are nodes |
| Editor.Editor.MarkText | src/main/webapp/ui/js/codemirror.js:1538-1554 | each touched line pushes its span into its list; text and history stay; the marker covers exactly its range if and only if its end is not before its start and no touched line shares its list with another line; the log is enough if and only if none shares it with a line outside the range; and which state a range leaves whose end is given first |
| SpanLists.UpdateMarkedSpans | src/main/webapp/ui/js/codemirror.js:2396-2444 | the in-place loops compute the spans of the new lines as the functions below say; the inner lines get one list between them, the others lists of their own |
| SpanLists.EditOwnsLists | src/main/webapp/ui/js/codemirror.js:2436-2443 | after an edit no new line shares its list with a line that was there before |
| SpanLists.LinesPushed | src/main/webapp/ui/js/codemirror.js:1544-1551 | the loop of `markText`: which spans each line has got, its own and those of the lines that share its list |
| SpanLists.MarkedIfUnshared | src/main/webapp/ui/js/codemirror.js:1538-1554 | a new marker covers exactly its range if and only if none of its lines shares its list with another line |
| SpanLists.OthersStay | src/main/webapp/ui/js/codemirror.js:1538-1554 | a line outside the range looks as before if and only if it shares its list with no line of the range |
| SpanLists.OtherMarkersStay | src/main/webapp/ui/js/codemirror.js:1538-1554 | other markers stay as they are, shared lists or not |
| SharedMarks.InnerLinesShare | src/main/webapp/ui/js/codemirror.js:2436-2443 | when several lines are inserted in the middle of a marker, their inner lines share a list |
| SharedMarks.InnerMarkSpreads | src/main/webapp/ui/js/codemirror.js:1538-1554 | a marker made on one of them does not cover exactly its range, and the log misses a line |
| SharedMarks.MarkOnInsertedLine | src/main/webapp/ui/js/codemirror.js:1538-1554 | an example: a marker on the second line appears on the third as well |
| SharedMarks.JoinedToWrongSpan | src/main/webapp/ui/js/codemirror.js:2404-2412 | an example: typing before a marker that two lines share covers two characters more |
| SharedMarks.CutBetweenCopies | src/main/webapp/ui/js/codemirror.js:2414-2428 | an example: after a deletion between two copies of a marker a covered character is covered no more |
| Marks.MarkedSpansBefore | src/main/webapp/ui/js/codemirror.js:2368-2380 | what sticks out before the range |
| Marks.MarkedSpansAfter | src/main/webapp/ui/js/codemirror.js:2382-2394 | what sticks out after the range, measured from its end |
| Marks.GetMarkedSpanFor | src/main/webapp/ui/js/codemirror.js:2358-2366 | the first span of a marker |
| Marks.UpdatedOf | src/main/webapp/ui/js/codemirror.js:2396-2444 | markers do not influence one another: the spans of one marker after an edit depend on its own spans only |
| Marks.MarkMoves | src/main/webapp/ui/js/codemirror.js:2396-2444 | a marker that covers a range covers, after any edit, the range whose ends have moved with the text; it vanishes exactly if nothing of it sticks out of the replaced range |
| Coverage.CoverageSurvives | src/main/webapp/ui/js/codemirror.js:2368-2444 | for any spans in any order: a character that survives an edit is covered after it exactly if it was before, always before the range and on later lines, and behind the range on its last line if the new text has several lines; with one new line, if and only if the spans are joined well at that character |
| Coverage.RangeSurvives | src/main/webapp/ui/js/codemirror.js:2368-2444 | so it always is for a marker that covers one range |
| Coverage.SameLineBehind | src/main/webapp/ui/js/codemirror.js:2404-2428 | which characters behind the range are covered when the new text has one line: those of spans that start there, and those of the first span that goes on, where it is joined or given a start |
| Coverage.CoverageInserted | src/main/webapp/ui/js/codemirror.js:2368-2444 | for any spans: when an inserted character is covered; that is when the marker goes into the range and comes out of it, except in two cases, which are given exactly |
| Coverage.RangeInserted | src/main/webapp/ui/js/codemirror.js:2368-2444 | for a marker that covers one range, exactly if it started before the replaced range and ended after it |
| Coverage.PositionsSplit | src/main/webapp/ui/js/codemirror.js:2396-2444 | every position of the new document is a surviving or an inserted one |
| Marks.MarkerIsMade | src/main/webapp/ui/js/codemirror.js:1538-1554 | when every line of the range gets its own span, the new marker covers exactly its range and the others stay as they are |
| Marks.NewSpansForward | src/main/webapp/ui/js/codemirror.js:2396-2444 | no line gets a span that ends before it begins |
| Positions.PosFromIndex | src/main/webapp/ui/js/codemirror.js:321-330 | the position found has the given offset, clipped to the text |
| Positions.IndexFromPos | src/main/webapp/ui/js/codemirror.js:331-338 | the offset of a position, also of positions outside the text |
| Positions.ClipPos | src/main/webapp/ui/js/codemirror.js:1349-1356 | positions outside the text are moved to its nearest valid position as the source does |
| Positions.PosOfIndexOf | src/main/webapp/ui/js/codemirror.js:321-338 | converting a valid position to an offset and back gives the position |
| Positions.IndexOfPosOf | src/main/webapp/ui/js/codemirror.js:321-338 | converting an offset to a position and back gives the offset, clipped to the ends |
| Positions.OffsetsDiffer | src/main/webapp/ui/js/codemirror.js:331-338 | offsets order positions strictly |
| Display.ComputeIntact | src/main/webapp/ui/js/codemirror.js:1130-1151 | the loops compute what is left of the ranges |
| Display.IntactHits | src/main/webapp/ui/js/codemirror.js:1130-1151 | the intact ranges are exact: a node is kept for a line exactly if that line was not touched and has moved there |
| Display.TraceIs | src/main/webapp/ui/js/codemirror.js:1130-1151 | a line has moved from one number to another exactly if it lay before each change, and stayed, or behind it, and moved by what the change added |
| Display.IntactSorted | src/main/webapp/ui/js/codemirror.js:1073 | the ranges come out in the order of their nodes, so the sort changes nothing |
| Display.ClipRanges | src/main/webapp/ui/js/codemirror.js:1061-1068 | clipping in place, with the count of intact lines |
| Display.ClipHits | src/main/webapp/ui/js/codemirror.js:1061-1068 | clipping keeps exactly the hits inside the window |
| Display.AllIntact | src/main/webapp/ui/js/codemirror.js:1069-1072 | the early return is right: then the nodes already show the window |
| Display.LineDiv.RemoveStale | src/main/webapp/ui/js/codemirror.js:1159-1169 | the first pass leaves exactly the nodes of the intact lines |
| Display.LineDiv.FillLines | src/main/webapp/ui/js/codemirror.js:1170-1190 | the second pass puts in the lines that have no node, and no others, so that the window is complete |
| Display.LineDiv.UpdateDisplay | src/main/webapp/ui/js/codemirror.js:1038-1096 | for any nodes and any sound log: afterwards the nodes are the window on the document with the lines of the kept nodes laid over it, the visible lines are inside the window, and BAD PATCH is never raised; with every early exit |
| MarkSweep.AdvanceMarks | src/main/webapp/ui/js/codemirror.js:2630-2644 | the sweep holds exactly the marks that have begun and not ended, and knows the next change |
| MarkSweep.ShowUpTo | src/main/webapp/ui/js/codemirror.js:2649-2663 | the inner loop shows the text up to the next change with the same marks throughout |
| MarkSweep.ShowMarked | src/main/webapp/ui/js/codemirror.js:2626-2665 | the fragments make up the line; every character has the style of its token and exactly the marks that cover it, each as often as the line has it |
| MarkSweep.GetContent | src/main/webapp/ui/js/codemirror.js:2543-2668 | the same for any line, also without marks and for the empty line |
| LineContent.LineContent | src/main/webapp/ui/js/codemirror.js:378-382 | a line that is highlighted and then put together shows its text, its token styles and its marks |
| LineContent.EditorLine | src/main/webapp/ui/js/codemirror.js:378-382 | the same for any line of any editor, whose spans never end before they begin |
| Sparql.Highlight | src/main/webapp/ui/js/codemirror.js:2499-2517 | highlighting terminates, the fragments make up the line with the style of each token, neighbours differ in style, and only a line cut off behind character 5000 has an unexamined rest |
| Sparql.HighlightLines | src/main/webapp/ui/js/sparql.js:92-119 | over any number of lines from the start the brackets of the contexts are those of the plain matcher |
| Sparql.ContextsFollow | src/main/webapp/ui/js/sparql.js:104-119 | one token keeps contexts and plain matcher in step, and every pattern context directly on a brace or square bracket |
| Sparql.SparqlMode.GetToken | src/main/webapp/ui/js/sparql.js:92-119 | a token advances and is the token of the lexical function; the stack of contexts follows it |
| Sparql.SparqlMode.TokenBase | src/main/webapp/ui/js/sparql.js:15-60 | the branches of the tokenizer compute the lexical function |
| Sparql.SparqlMode.TokenLiteral | src/main/webapp/ui/js/sparql.js:62-74 | a literal ends behind the first unescaped quote or goes on in the next line |
| SparqlTokens.LiteralIs | src/main/webapp/ui/js/sparql.js:62-74 | on characters: the quote that ends a literal has an even run of backslashes before it, no earlier quote has, and a literal without such a quote stays open |
| SparqlTokens.TokenIs | src/main/webapp/ui/js/sparql.js:15-98 | on characters, by the first one: the style and the end of every kind of token |
| SparqlTokens.OneToken | src/main/webapp/ui/js/sparql.js:15-98 | this description leaves no choice: only one token fits the characters |
| SparqlTokens.LineIs | src/main/webapp/ui/js/codemirror.js:2499-2517 | the styles of a line, and the state after it, are those of tokens that follow one another up to the end of the line or past character 5000 |
| SparqlTokens.EscapedQuote | src/main/webapp/ui/js/sparql.js:70 | an example: an escaped quote does not end a literal |
| SparqlTokens.BracketsPair | src/main/webapp/ui/js/sparql.js:110-114 | the plain matcher: an opening bracket waits for its own closer, a closer that does not fit is ignored |
| SparqlTokens.PatternsFollow | src/main/webapp/ui/js/sparql.js:115-119 | which tokens begin and end a pattern |
| Selector.MatcherFromTokens | src/main/webapp/ui/js/jquery-1.9.1.js:5269-5317 | the loop builds the matcher that the function of the proofs describes |
| Selector.CombMeans | src/main/webapp/ui/js/jquery-1.9.1.js:5091-5119 | a combinator matches exactly if a related node matches its inner matcher |
| Selector.RelatedIs | src/main/webapp/ui/js/jquery-1.9.1.js:5091-5119 | what related means: an ancestor or earlier sibling that is an element, for some combinators the nearest one |
| Selector.PlainSelects | src/main/webapp/ui/js/jquery-1.9.1.js:5269-5290 | a selector without a leading combinator asks for a context above its leftmost node, except in XML and in inner contexts |
| Selector.CompilationMeans | src/main/webapp/ui/js/jquery-1.9.1.js:5269-5317 | the compiled matcher accepts a node exactly if nodes can be assigned to all parts of the selector, related as its combinators demand and anchored in the context |
| Selector.Memo.Walk | src/main/webapp/ui/js/jquery-1.9.1.js:5120-5137 | the memoised walk gives the result of the plain one, from any notes that tell the truth, and leaves such notes |
| Selector.Memo.WalkPlain | src/main/webapp/ui/js/jquery-1.9.1.js:5112-5119 | the walk without notes |
| Selector.Memo.WalkFirst | src/main/webapp/ui/js/jquery-1.9.1.js:5098-5104 | the walk of a combinator that looks at the nearest node only |
| Selector.Memo.Visit | src/main/webapp/ui/js/jquery-1.9.1.js:5121-5136 | one step of the memoised walk, for every kind of note found at the node |
| Selector.WalkFails | src/main/webapp/ui/js/jquery-1.9.1.js:5124-5127 | when a walk fails, all its notes with the current number are final: nothing beyond those nodes matches, which makes stopping at such a note right |
| Selector.Memo.Eval | src/main/webapp/ui/js/jquery-1.9.1.js:5141-5153 | filters from the last to the first and then the combinator; after a success nothing is claimed of the notes of that matcher, which is sound because the group then ends |
| Selector.NextElement | src/main/webapp/ui/js/jquery-1.9.1.js:5355-5358 | raising the run number makes all notes usable for the next element, also those left by a success |
| Selector.Memo.TryAll | src/main/webapp/ui/js/jquery-1.9.1.js:5348-5354 | the matchers of a group are tried until one accepts |
| Selector.Memo.MatchElements | src/main/webapp/ui/js/jquery-1.9.1.js:5330-5359 | over all elements of a call the memoised matchers select exactly the elements that the plain ones do |
| Selector.BuildKnown | src/main/webapp/ui/js/jquery-1.9.1.js:5091-5094 | the combinators of compiled matchers have different numbers |
| Selector.Compile | src/main/webapp/ui/js/jquery-1.9.1.js:5422-5446 | a group of selectors is compiled, last one first |
| Selector.Select | src/main/webapp/ui/js/jquery-1.9.1.js:5322-5446 | compiling a group and running it selects exactly the elements that some selector of the group selects |
| Callbacks.StepGood | src/main/webapp/ui/js/jquery-1.9.1.js:1029-1152 | every operation, called from outside or from a running callback, and every return keep the invariant of the list |
| Callbacks.RunGood | src/main/webapp/ui/js/jquery-1.9.1.js:1029-1152 | so it holds in every reachable state |
| Callbacks.CalledOnce | src/main/webapp/ui/js/jquery-1.9.1.js:1036-1041 | in a firing that has come to its end every callback of the list that was to be called has been called exactly once, with the data of the firing |
| Callbacks.Ends | src/main/webapp/ui/js/jquery-1.9.1.js:1042-1054 | every firing but the last has come to its end |
| Callbacks.CallOrder | src/main/webapp/ui/js/jquery-1.9.1.js:1036-1041 | calls of one firing are in list order, without repetition |
| Callbacks.RemovedNeverCalled | src/main/webapp/ui/js/jquery-1.9.1.js:1089-1108 | a removed callback is never called again, so one removed before its turn is not called at all |
| Callbacks.RemoveTakesOut | src/main/webapp/ui/js/jquery-1.9.1.js:1089-1108 | after removing none of the functions is in the list; the others are, in order, with their numbers; nothing is called |
| Callbacks.RemoveStops | src/main/webapp/ui/js/jquery-1.9.1.js:1089-1108 | over any run, functions that have been removed are not called any more, unless they are added again |
| Callbacks.AddPuts | src/main/webapp/ui/js/jquery-1.9.1.js:1058-1087 | adding puts the functions at the end of the list, in a unique list the new ones, once each; a list with memory that is at rest calls the first of them at once with the data remembered |
| Callbacks.FireCalls | src/main/webapp/ui/js/jquery-1.9.1.js:1141-1152 | a fire call on a list at rest calls the first callback at once; it waits while the list is firing, and is ignored on a list that is disabled, or locked after firing |
| Callbacks.ServedInTurn | src/main/webapp/ui/js/jquery-1.9.1.js:1029-1054 | each fire call that is served has a firing of its own with its data, in the order of the calls |
| Callbacks.ServedInFull | src/main/webapp/ui/js/jquery-1.9.1.js:1036-1041 | in it every callback that is in the list at its end has been called exactly once |
| Callbacks.OptionsHold | src/main/webapp/ui/js/jquery-1.9.1.js:1029-1054 | a list remembers its last data exactly if it has memory, and fires only once if it is to |
| Callbacks.LockIsFinal | src/main/webapp/ui/js/jquery-1.9.1.js:1120-1135 | after locking or disabling no fire call that waits is served and no new one is accepted |
| Callbacks.FirstInFirstOut | src/main/webapp/ui/js/jquery-1.9.1.js:1141-1152 | nested fire calls are delivered in the order in which they were made, and all of them if the list is neither locked nor disabled |
| Callbacks.CallbackList.Fire | src/main/webapp/ui/js/jquery-1.9.1.js:1029-1035 | the fields are set as the step function says |
| Callbacks.CallbackList.Continue | src/main/webapp/ui/js/jquery-1.9.1.js:1036-1054 | the loop up to the next call, and what follows a firing: the next queued one, clearing, or disabling |
| Callbacks.CallbackList.Add | src/main/webapp/ui/js/jquery-1.9.1.js:1058-1087 | callbacks added during a firing are part of it; with memory they are called at once |
| Callbacks.CallbackList.Remove | src/main/webapp/ui/js/jquery-1.9.1.js:1089-1108 | all occurrences go, and the indexes of a running firing follow |
| Callbacks.CallbackList.FireWith | src/main/webapp/ui/js/jquery-1.9.1.js:1141-1152 | a fire call is delivered, queued or ignored |
| Callbacks.CallbackList.Lock | src/main/webapp/ui/js/jquery-1.9.1.js:1129-1135 | locking drops the queue, and disables a list without memory |
| Callbacks.CallbackList.Disable | src/main/webapp/ui/js/jquery-1.9.1.js:1120-1123 | disabling drops the list, the queue and the memory |
| Callbacks.DisabledIdle | src/main/webapp/ui/js/jquery-1.9.1.js:1120-1123 | on a disabled list adding, removing and firing have no effect, and nothing undoes this |
| Deferred.SettlesOnce | src/main/webapp/ui/js/jquery-1.9.1.js:1168-1241 | in any order of calls and returns a deferred is settled at most once, and its outcome and data never change |
| Deferred.SettlesOnceFromNew | src/main/webapp/ui/js/jquery-1.9.1.js:1168-1241 | so it is at any two times of a run that begins with a new deferred |
| Deferred.HandlersOnce | src/main/webapp/ui/js/jquery-1.9.1.js:1168-1241 | handlers of the losing side are never called; those of the winning side are called exactly once each, in order, with the settling data, whether attached before, during or after the settlement |
| Deferred.CalledInOrder | src/main/webapp/ui/js/jquery-1.9.1.js:1168-1241 | the functions that users attach to the winning side, by any calls at any time, are called in the order of attaching, each once, with the settling data; when the list is at rest all of them have been |
| Deferred.RunHas | src/main/webapp/ui/js/jquery-1.9.1.js:1222-1223 | each of the three lists has got exactly the functions attached to it, in order |
| Deferred.OneSide | src/main/webapp/ui/js/jquery-1.9.1.js:1225-1233 | the two sides never both win |
| Deferred.NoMoreProgress | src/main/webapp/ui/js/jquery-1.9.1.js:1231-1232 | after the settlement notifications are ignored |
| Deferred.DeferredObject.constructor | src/main/webapp/ui/js/jquery-1.9.1.js:1169-1241 | a new deferred is pending, with its own callbacks first in both lists |
| Deferred.DeferredObject.Settle | src/main/webapp/ui/js/jquery-1.9.1.js:1225-1240 | settling a pending deferred sets its state and data before any callback of a user runs; settling again changes nothing |
| Deferred.DeferredObject.RunOwn | src/main/webapp/ui/js/jquery-1.9.1.js:1226-1232 | the deferred's own callbacks set the state, disable the other list and lock the progress list |
| Deferred.DeferredObject.Attach | src/main/webapp/ui/js/jquery-1.9.1.js:1222-1223 | attaching is adding to the list of that side |
| Deferred.DeferredObject.Notify | src/main/webapp/ui/js/jquery-1.9.1.js:1235-1240 | notifying fires the progress list |
| Springy.Graph.AddEdge | src/main/webapp/ui/js/springy.js:97-125 | for an edge with any id: index and list agree afterwards exactly if the edges of the list with that id have the same two ends; no bucket is empty in any case |
| Springy.AddedAgrees | src/main/webapp/ui/js/springy.js:97-125 | the same for the two tests of `addEdge` on values |
| Springy.NumberGivenTwice | src/main/webapp/ui/js/springy.js:97-156 | after `addEdge` with id 0 on a new graph the first edge of `newEdge` is in the index only |
| Springy.Graph.NewEdge | src/main/webapp/ui/js/springy.js:152-156 | the edge is new, and index and list agree, unless `addEdge` has used the number; without `addEdge` the numbers that are still to be given stay unused, through all operations |
| Springy.Graph.NewNode | src/main/webapp/ui/js/springy.js:146-150 | a new node gets the next number, which is not given again; list and set of nodes have the same ids |
| Springy.Graph.AddNode | src/main/webapp/ui/js/springy.js:76-85 | an id that is already there is not added to the list again |
| Springy.Graph.AddEdges | src/main/webapp/ui/js/springy.js:127-144 | edges with the next numbers are added up to the first unknown node; index and list agree afterwards exactly if none of these numbers was in use for other ends |
| Springy.AllAddedAgrees | src/main/webapp/ui/js/springy.js:97-144 | the same on values, through calls that find index and list out of agreement already |
| Springy.Graph.GetEdges | src/main/webapp/ui/js/springy.js:196-203 | the edges from one node to another, in the order in which they were added |
| Springy.Graph.RemoveEdge | src/main/webapp/ui/js/springy.js:233-262 | the edge goes from list and index, and no empty bucket is left |
| Springy.Graph.RemoveNode | src/main/webapp/ui/js/springy.js:206-218 | the node goes from list and set, and no edge mentions it any more |
| Springy.Graph.DetachNode | src/main/webapp/ui/js/springy.js:221-230 | exactly the edges of the node go |
| Springy.Graph.FilterNodes | src/main/webapp/ui/js/springy.js:297-304 | exactly the nodes that pass stay, and the edges that touch no other node |
| Springy.Graph.FilterEdges | src/main/webapp/ui/js/springy.js:306-313 | exactly the edges that pass stay |
| Springy.PurgedAgrees | src/main/webapp/ui/js/springy.js:240-259 | taking an edge out of the buckets keeps index and list in agreement |
| Springy.WithEdgeAgrees | src/main/webapp/ui/js/springy.js:109-121 | adding to the bucket keeps index and list in agreement |

## Left out

- Read-only mode, selections, scrolling, the gutter, fonts, measurement, the highlighting worker and all event handlers of the editor.
- Line handlers, `bgClassName` and the other fields of lines that only decorate; hidden lines have height 0 in the lookups, but the longest-line cache is stated for documents without hidden lines and without line wrapping.
- Bookmarks and markers with inclusive ends, `TextMarker.clear` and `find`, and the list of lines that a marker keeps.
- What undoing brings back is stated for the text. The lines come back with the lists that the history refers to, and with all that has been pushed into these lists in between.
- `Line.getContent` sorts the list of the line in place; `MarkSweep.GetContent` sorts a copy. The order of the spans has no influence on what is shown, but it has on the joining of spans in later edits; `Coverage` states what they do for spans in any order.
- `MarkSweep.AdvanceMarks`: does not model spans that end before they begin, which only a range with its end given first leaves.
- `MarkSweep.ShowMarked`: does not model such spans either, with which the sweep of the source need not end.
- `MarkSweep.GetContent`: does not model such spans, as above.
- `LineContent.LineContent`: does not model such spans, as above.
- `ChunkTree.Chunk.LeafRemove`: does not model the line handlers that are called and the removal of the line from its markers.
- `Iteration.Iter`: does not model the early end of the walk when the operation returns true.
- `Editor.GetValue`: does not model another line separator than the newline.
- `Editor.Editor.constructor`: does not model the initial value in the options, which is set by an ordinary edit.
- `Marks.MarkedSpansBefore`: does not model inclusive ends and bookmarks.
- `Marks.MarkedSpansAfter`: does not model inclusive ends and bookmarks.
- `Marks.GetMarkedSpanFor`: does not model the deletion of the span that is found, which only `TextMarker.clear` needs.
- `replaceRange` and `replaceSelection`, which adjust positions of the selection, and the fallback of `splitLines`.
- `options.onChange`, whose normalisation of the lines it receives has no effect on the document.
- `setHistory` and `clearHistory`; the time of a change is a parameter.
- `Line.getContent` with a wrapping point, the replacement of special characters and tabs, and the start and end styles of marks.
- The saved parser states and the choice of a line to start from; the SPARQL mode is one contiguous run from the start of the document. Its indentation, columns and the `align` flag.
- Tokenising selectors, positional filters and `setMatcher`, nested selectors, and the native query functions; the tree does not change during a run.
- `Selector.Memo.MatchElements`: does not model nested calls, which give `dirruns` fractional values, because no nested selectors are modelled.
- Callbacks: `empty` while firing, `stopOnFalse`, and callbacks that throw; `add` is given its callbacks as one flat list.
- `Deferred`: the derived methods `then`, `pipe` and `always`, and jQuery.when.
- Springy: `merge`, `loadJSON`, `addNodes` with names as ids, listeners, the layout and the renderer; ids of nodes are numbers.
- `TextEdit.ReplaceText`: states the text and the surviving line objects; that line heights stay as they are follows from its frame only.
- The Java command classes, which rest on code that is not part of this model, and the other scripts of the user interface.
