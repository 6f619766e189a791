# parceqt in Dafny

This project models the core of parceqt: the Qt side of the parce and
livelex lexing libraries. It covers:

- the syntax highlighters that paint parce's or livelex's format ranges into
  the blocks of a QTextDocument. The painting is block by block, it can be
  interrupted when the user types, and it keeps the formats of the first
  block that lie before the painted span;
- `split_formats`, which cuts a block's format list at a position;
- the tree builders, which edit a context's child list and report every
  change as Qt model signals. The debugging builder has a hand-written slice
  normaliser;
- the tree model (`index`, `parent`, `rowCount`, `columnCount`, `data`);
- the ExtraSelectionManager. It keeps selections per text format, in a
  dictionary ordered by insertion. It hands them to the text edit stably
  sorted by priority;
- the factories that turn parce's CSS text formats into QTextCharFormats:
  the one in the formatter module and the one in the theme module;
- the two document wrappers. They apply a list of changes to the
  QTextDocument from the last change to the first, read text back, and find
  the start and the end of the line around a position.

The QTextDocument is a class with the text and the layout formats of each
block. The block lengths are derived from the text: one block per line, each
block's length counting its separator, and the last block counts Qt's
closing separator. The highlighters' painting loop is a method. It is proved
against a specification of what each block must hold. Three things are
oracles, given as parameters:

- what the Formatter yields (`format_ranges`);
- livelex's tokens;
- whether the user typed while events were processed (the document revision changed).

## Model

| member | source | states |
|---|---|---|
| Painting.PaintRanges | parceqt/highlighter.py:164-201 | the painting loop. Uninterrupted, every block of the span holds exactly the kept head plus the pieces of the ranges that reach it, and no block outside the span changes. It stops exactly at the first check where the user typed: a check comes after a range, at the block the range ends in, when that block is more than 100 blocks past the first and more than 1000 past the previous check. It stops only when interruptible, and then exactly the blocks before the stopping block are painted |
| Painting.EndBlock | parceqt/highlighter.py:175-187 | after a range is cut, painting is at the block holding the range's clipped end, a block of the span |
| Painting.PaintRange | parceqt/highlighter.py:167-187 | one range painted: the blocks before it are stored, and painting ends at the block EndBlock names, with the range's pieces collected |
| Painting.ChecksSpaced | parceqt/highlighter.py:164-189 | the blocks where the revision is checked lie more than 100 blocks past the first, inside the span, each more than 1000 blocks after the previous one |
| Painting.FirstTypedIsFirst | parceqt/highlighter.py:188-197 | the run quits at a check exactly when the user typed there and at no earlier check, and runs to the end exactly when the user typed at none |
| Painting.StopBlockBounds | parceqt/highlighter.py:188-197 | a run stops only when interruptible, only where the user typed, more than 100 blocks past the first and inside the span |
| Painting.CheckTyped | parceqt/highlighter.py:188-197 | after a range: quits only when interruptible, past num, where the user typed, and that block is the first check left; otherwise the remaining checks are those from the next range on |
| Painting.PieceCovers | parceqt/highlighter.py:172-187 | a block position is covered by a range's piece in that block exactly when the range covers it (up to the span's end), except for the separator of a block the range runs past |
| Painting.AddMiddlePiece | parceqt/highlighter.py:176-185 | a range that runs past the block's end is stored as the piece up to, not including, the block's separator |
| Painting.AddLastPiece | parceqt/highlighter.py:186-187 | a range that ends in the block is stored up to its clipped end; the range is then done with that block, and the next range starts no earlier than the block |
| Painting.ClearNext | parceqt/highlighter.py:198-200 | once the last range is done, the block after the current one gets empty formats, which is what the pass expects there |
| Painting.ClearedWhenUntouched | parceqt/highlighter.py:166-201 | a block of the span that no range reaches ends up empty, except the first block, which keeps the formats before the start |
| Painting.PaintedAt | parceqt/highlighter.py:166-201 | after painting up to a block, exactly the blocks of the span before it hold their expected formats and every other block is as it was |
| Painting.OrderedApart | parceqt/highlighter.py:166-187 | of two format ranges in the Formatter's order, the earlier ends before the later starts |
| Painting.PiecesOrdered | parceqt/highlighter.py:166-187 | the pieces the ranges put into one block come in document order and do not overlap: each starts in the block, none has a negative length, and each ends before the next starts |
| Painting.ClearAll | parceqt/highlighter.py:89-93 | the number of blocks is unchanged and every block's formats are cleared |
| SplitFormats.Split | parceqt/highlighter.py:208-247 | the two loops give exactly the head (the ranges before pos, plus a straddling range cut at pos) and the tail (the rest, moved back by pos) |
| SplitFormats.CutIndex | parceqt/highlighter.py:229-243 | the first loop stops at the first range that does not lie wholly before pos |
| SplitFormats.HeadKeepsBefore | parceqt/highlighter.py:229-243 | the ranges before pos open the head unchanged and in order, and nothing in the head reaches past pos |
| SplitFormats.StraddleCut | parceqt/highlighter.py:233-239 | a straddling range is cut in two at pos: one piece ends at pos, the other starts at 0 in the tail, and their lengths add up to the original |
| SplitFormats.SplitRejoins | parceqt/highlighter.py:208-247 | without a straddling range, the head followed by the tail moved forward by pos gives back the original list |
| SplitFormats.TailAfterStraddle | parceqt/highlighter.py:244-246 | every range after the straddling one is in the tail, moved back by pos |
| SplitFormats.ShiftBack | parceqt/highlighter.py:219-224 | moving ranges back by d undoes moving them forward by d |
| ParceHighlighter.RunSpan | parceqt/highlighter.py:142-147 | an interruptible run covers both the requested span and the remembered one, and each bound comes from one of them |
| ParceHighlighter.LastBlock | parceqt/highlighter.py:154-159 | the last block is the one holding end, or the last block of the document when end lies past the text |
| ParceHighlighter.SpanBlocks | parceqt/highlighter.py:150-159 | the start's block comes no later than the last block, and the widened span ends inside the document |
| ParceHighlighter.PassFor | parceqt/highlighter.py:150-165 | the pass widened to whole blocks: it starts at the start's block and ends before the last block's separator, it keeps split_formats' head, and its ranges lie inside the span, ordered |
| ParceHighlighter.KeepsFormatsBeforeStart | parceqt/highlighter.py:165 | a run keeps the formats of its first block that end before its start, unchanged and in front |
| ParceHighlighter.PreviewEnd | parceqt/highlighter.py:116-122 | the preview ends just before the block holding the tree's end, and at -1 when there is no such block |
| ParceHighlighter.SyntaxHighlighter.constructor | parceqt/highlighter.py:51-55 | a new highlighter has no Formatter and no remembered span |
| ParceHighlighter.SyntaxHighlighter.DrawHighlighting | parceqt/highlighter.py:129-205 | without a Formatter nothing changes. Otherwise the layouts are painted for the widened span, and a finished interruptible run forgets the remembered span. It stops exactly at the first scheduled check where the user typed, and only when interruptible. An interrupted run remembers the span from the block where it stopped |
| ParceHighlighter.SyntaxHighlighter.MakePass | parceqt/highlighter.py:150-165 | finds the blocks and the kept head, as PassFor states |
| ParceHighlighter.SyntaxHighlighter.Clear | parceqt/highlighter.py:82-94 | every block's formats are cleared and the highlighter stays valid |
| ParceHighlighter.SyntaxHighlighter.DrawAll | parceqt/highlighter.py:103-108 | the whole document, from 0 to characterCount - 1, is drawn interruptibly, as DrawHighlighting draws it, stopping exactly at the first scheduled check where the user typed |
| ParceHighlighter.SyntaxHighlighter.Rehighlight | parceqt/highlighter.py:96-110 | with a Formatter and a tree, the whole document is drawn interruptibly, stopping exactly at the first scheduled check where the user typed. With a Formatter and no tree, nothing changes. Without a Formatter, everything is cleared |
| ParceHighlighter.SyntaxHighlighter.SetFormatter | parceqt/highlighter.py:66-76 | sets the Formatter. The same Formatter changes nothing. A different Formatter with a tree draws the whole document interruptibly, stopping exactly at the first scheduled check where the user typed; without a tree nothing is drawn and nothing changes; None clears every block |
| ParceHighlighter.SyntaxHighlighter.SlotPreview | parceqt/highlighter.py:116-122 | a preview is drawn without interruption and without touching the remembered span, and only when it ends after its start |
| ParceHighlighter.SyntaxHighlighter.SlotUpdated | parceqt/highlighter.py:124-127 | an updated region is drawn interruptibly when a Formatter is set, stopping exactly at the first scheduled check where the user typed |
| LivelexHighlighter.GetFormat | livelexqt/highlighter.py:126-142 | builds the action's format setting by setting, equal to ActionFormat |
| LivelexHighlighter.FormatPrecedence | livelexqt/highlighter.py:131-141 | Escape's colour wins over Comment's, and Comment's wins over String's. There is no colour exactly when the action is in none of String, Name, Comment and Escape. Italic exactly for comments, bold exactly for delimiters, and nothing else is set |
| LivelexHighlighter.TokenRanges | livelexqt/highlighter.py:97-119 | one range per token, with the token's span and its action's format |
| LivelexHighlighter.FormatTokens | livelexqt/highlighter.py:104-105 | maps the tokens to ranges exactly as TokenRanges |
| LivelexHighlighter.UpdatePass | livelexqt/highlighter.py:88-98 | the pass covers whole blocks from the start's block to the end's block, keeps no head, and its ranges are valid when the tokens are |
| LivelexHighlighter.SyntaxHighlighter.constructor | livelexqt/highlighter.py:58-63 | the highlighter is attached to its document; when the document has a tree, every block from the first to the last holds exactly its tokens' pieces, as SlotUpdated over the whole text paints them, and otherwise no block changes |
| LivelexHighlighter.SyntaxHighlighter.Clear | livelexqt/highlighter.py:65-72 | every block's formats are cleared |
| LivelexHighlighter.SyntaxHighlighter.SlotUpdated | livelexqt/highlighter.py:88-124 | the blocks from the start's block to the end's block hold exactly their tokens' pieces, and no other block changes |
| LivelexHighlighter.Registry.constructor | livelexqt/highlighter.py:46-56 | no instances yet |
| LivelexHighlighter.Registry.Instance | livelexqt/highlighter.py:46-63 | one highlighter per document. The stored one is returned and nothing changes. Otherwise a fresh one is stored; with a tree it paints every block with its tokens' pieces, and without one the layouts are unchanged |
| TreeModel.IndexOf | parceqt/treemodel.py:36-41 | an index is made exactly when the row and column lie inside the parent. It points at the row-th child of the parent's node and records its row and column |
| TreeModel.ParentOf | parceqt/treemodel.py:43-48 | the parent index is in column 0 and points one level up. It is invalid exactly for the invalid index and for the root's children |
| TreeModel.ColumnCount | parceqt/treemodel.py:50-51 | always one column |
| TreeModel.RowCount | parceqt/treemodel.py:53-58 | the children of a context in column 0 (or of the root), and 0 for anything else |
| TreeModel.NoRows | parceqt/treemodel.py:53-58 | a token, or an index in a column other than 0, has no rows |
| TreeModel.Data | parceqt/treemodel.py:60-63 | the node for DisplayRole on a valid index, nothing otherwise |
| TreeModel.ParentOfIndex | parceqt/treemodel.py:36-48 | the parent of a made index is the index it was made under |
| TreeModel.IndexOfParent | parceqt/treemodel.py:36-48 | an index is the index made from its parent at its row in column 0 |
| TreeModel.LookupChild | parceqt/treemodel.py:36-41 | one more row in a path goes one child down from the node the path reaches |
| TreeModel.LookupAncestor | parceqt/treemodel.py:43-48 | the context above a reachable node is reached by the shorter path |
| TreeBuilder.Bound | parceqt/treebuilder.py:76 | one bound of slice.indices: None gives the default, a negative bound counts from the end, and the result is clamped to the list |
| TreeBuilder.DeleteSlice | parceqt/treebuilder.py:80 | `del context[slice]`: the list is shorter by the rows from start to stop, the items before start are kept in place, and the items from stop on move up to start |
| TreeBuilder.InsertAt | parceqt/treebuilder.py:84 | `context[i:i] = nodes`: the items before the clamped position stay, the nodes follow them in order, and the items from that position on move down by the number of nodes |
| TreeBuilder.TreeBuilder.constructor | parceqt/treebuilder.py:65-67 | no signals and no root lexicon yet |
| TreeBuilder.TreeBuilder.Peek | parceqt/treebuilder.py:69-72 | a preview signal is emitted |
| TreeBuilder.TreeBuilder.ReplaceNodes | parceqt/treebuilder.py:74-85 | the slice is replaced by the nodes. The removed rows are reported only when there are any, and the inserted rows only when there are nodes. Each begin signal sees the child list before its change and each end signal the list after it |
| TreeBuilder.TreeBuilder.RemoveRows | parceqt/treebuilder.py:79-81 | begin_remove_rows is emitted while the list still has the rows, end_remove_rows after the deletion |
| TreeBuilder.TreeBuilder.InsertRows | parceqt/treebuilder.py:83-85 | begin_insert_rows is emitted before the splice, end_insert_rows after it |
| TreeBuilder.RemoveBracketed | parceqt/treebuilder.py:77-81 | the rows begin_remove_rows reports exist in the list it sees, and the list end_remove_rows sees lacks exactly those rows |
| TreeBuilder.InsertBracketed | parceqt/treebuilder.py:83-85 | the rows begin_insert_rows reports hold exactly the nodes in the list end_insert_rows sees, with the rows before them unchanged |
| TreeBuilder.ReplacedLength | parceqt/treebuilder.py:74-85 | the replaced list is as long as the list less the slice plus the nodes |
| TreeBuilder.TreeBuilder.ReplacePos | parceqt/treebuilder.py:87-92 | a position change is reported from index to the last row, only when that range is not empty |
| TreeBuilder.TreeBuilder.ReplaceRootLexicon | parceqt/treebuilder.py:94-97 | the root lexicon is replaced and the change reported |
| TreeBuilder.TreeBuilder.ProcessStarted | parceqt/treebuilder.py:99-102 | the started signal is emitted |
| TreeBuilder.TreeBuilder.ProcessFinished | parceqt/treebuilder.py:104-107 | the updated signal carries the changed region |
| Debug.GetSlice | parceqt/debug.py:348-368 | a start that is None or before -total becomes 0, and a negative start counts from the end. The end is clamped to [0, total]. A start at or past 0 is kept as given |
| Debug.GetSliceVsIndices | parceqt/debug.py:348-368 | get_slice agrees with slice.indices except for a start past the end, which slice.indices clamps |
| Debug.DebugTreeBuilder.constructor | parceqt/debug.py:279-286 | no signals yet |
| Debug.DebugTreeBuilder.ReplaceNodes | parceqt/debug.py:297-308 | as written: rows reported from get_slice, with the deletion and the splice following Python's slice rules; each begin signal sees the child list before its change and each end signal the list after it |
| Debug.DebugTreeBuilder.RemoveRows | parceqt/debug.py:301-303 | begin_remove_rows is emitted while the list still has the rows, end_remove_rows after the deletion |
| Debug.DebugTreeBuilder.InsertRows | parceqt/debug.py:305-307 | begin_insert_rows is emitted before the splice, end_insert_rows after it |
| Debug.InsertReportedPastEnd | parceqt/debug.py:297-308 | with three children and the slice `[5:]`, row 5 is reported as inserted, but the node is appended at row 3 |
| Debug.DebugTreeBuilder.ReplaceNodesClamped | parceqt/debug.py:297-308 | the corrected replace_nodes: the same result, signals and child lists seen by each signal as parceqt's tree builder |
| Debug.ClampedInsertRows | parceqt/debug.py:297-308 | with the clamped start, the inserted rows reported are exactly where the nodes land |
| Debug.LessEq | parceqt/treebuilder.py:90-91 | `start <= end` in Python: an int index compares, a slice raises TypeError |
| Debug.DebugTreeBuilder.ReplacePosAsWritten | parceqt/debug.py:310-316 | as written: the slice reaches parceqt's replace_pos as its index, the comparison raises TypeError, and no signal is emitted |
| Debug.ReplacePosRaises | parceqt/debug.py:310-316 | with one child and the slice `[0:1]`, the comparison raises, while the slice selects row 0 |
| Debug.DebugTreeBuilder.ReplacePos | parceqt/debug.py:310-316 | the corrected replace_pos: a position change is reported over the slice's rows, only when it has any |
| Debug.NamesFrom | parceqt/debug.py:332-345 | one name per lexicon until a repr does not split into two parts, which stops the generator |
| Debug.NamesAt | parceqt/debug.py:332-345 | each name is the short name when the language equals the previous lexicon's language, and the full repr otherwise |
| Debug.LexiconNames | parceqt/debug.py:332-345 | the loop yields exactly NamesFrom's names, and reports whether a repr failed to unpack |
| Strings.SplitOnShape | parceqt/debug.py:340 | str.split gives one more piece than there are separators, and no piece holds the separator |
| Strings.JoinSplitOn | parceqt/debug.py:340 | joining the pieces with the separator gives the string back |
| ExtraSelection.StableSortSpec | parceqt/gadgets/extraselectionmanager.py:107 | sorted by priority: ordered, a permutation, and entries of equal priority keep their dictionary order |
| ExtraSelection.StableSortSorted | parceqt/gadgets/extraselectionmanager.py:107 | the sorted list is ordered by priority and a permutation of the dictionary's values |
| ExtraSelection.StableSortTies | parceqt/gadgets/extraselectionmanager.py:107 | for every priority, the entries of that priority keep their dictionary order |
| ExtraSelection.InsertMultiset | parceqt/gadgets/extraselectionmanager.py:107 | inserting an entry adds exactly that entry, and nothing is lost |
| ExtraSelection.InsertKeepsTies | parceqt/gadgets/extraselectionmanager.py:107 | inserting an entry puts it after every entry of its priority |
| ExtraSelection.InsertSorted | parceqt/gadgets/extraselectionmanager.py:107 | inserting into a sorted list keeps it sorted and adds exactly that entry |
| ExtraSelection.InsertKeepsSorted | parceqt/gadgets/extraselectionmanager.py:107 | inserting by priority into a list sorted by priority gives a list sorted by priority |
| ExtraSelection.AppliedLength | parceqt/gadgets/extraselectionmanager.py:107-108 | the concatenated list holds every stored selection |
| ExtraSelection.RemoveDistinct | parceqt/gadgets/extraselectionmanager.py:91-98 | removing a key from the dictionary's order keeps the keys distinct |
| ExtraSelection.Remove | parceqt/gadgets/extraselectionmanager.py:91-98 | the keys left are exactly the others |
| ExtraSelection.RemoveAt | parceqt/gadgets/extraselectionmanager.py:91-98 | `del` on the dictionary keeps the order: taking out the key at index m leaves the keys before it and after it, in order |
| ExtraSelection.RemoveAbsent | parceqt/gadgets/extraselectionmanager.py:91-98 | taking out a key that is not there leaves the order as it was |
| ExtraSelection.ExtraSelectionManager.Values | parceqt/gadgets/extraselectionmanager.py:107 | the stored entries in the dictionary's insertion order |
| ExtraSelection.ExtraSelectionManager.constructor | parceqt/gadgets/extraselectionmanager.py:48-51 | both dictionaries start empty |
| ExtraSelection.ExtraSelectionManager.Highlight | parceqt/gadgets/extraselectionmanager.py:53-80 | the format is stored, and one selection per cursor with that format is stored under its priority. A new format goes last in the order, and a known one keeps its place. The text edit gets the sorted selections |
| ExtraSelection.ExtraSelectionManager.Clear | parceqt/gadgets/extraselectionmanager.py:82-101 | an unknown format changes no selections and updates nothing. A known one is removed, and the other keys keep their order (RemoveAt). None removes everything. The text edit is updated in both of the last two cases |
| ExtraSelection.ExtraSelectionManager.Update | parceqt/gadgets/extraselectionmanager.py:103-109 | the text edit, when there is one, gets the entries stably sorted by priority, their selection lists concatenated |
| ExtraSelection.ExtraSelectionManager.Delete | parceqt/gadgets/extraselectionmanager.py:111-114 | everything is cleared and the text edit emptied before the manager detaches |
| Formatter.KeywordSizes | parceqt/formatter.py:132-155 | the size keywords grow step by step, "smaller" and "larger" equal "small" and "large", and an unknown keyword is "medium" |
| Formatter.UnitsAgree | parceqt/formatter.py:132-155 | 12pt equals 16px, 1em, 1rem and 100%, and every unit scales linearly |
| Formatter.Trunc | parceqt/formatter.py:172 | int() truncates toward zero |
| Formatter.StretchKeywords | parceqt/formatter.py:158-172 | the stretch keywords grow from ultra-condensed to ultra-expanded. Unknown keywords are normal (100) |
| Formatter.WeightMonotone | parceqt/formatter.py:175-203 | a heavier CSS weight never gives a lighter QFont weight. 400 and 700 are Normal and Bold, and lighter < normal < bold < bolder |
| Formatter.SettingsEmpty | parceqt/formatter.py:206-256 | the built format is empty exactly when no property produces a setting |
| Formatter.TextFormat | parceqt/formatter.py:206-256 | a format is given exactly when there is a text format with a setting, and it holds every setting the properties ask for |
| Theme.ThemeSettingsEmpty | parceqt/theme.py:121-167 | the theme's format is empty exactly when no property produces a setting |
| Theme.TextFormatAsWritten | parceqt/theme.py:121-167 | as written: properties with a font size raise NameError. Without a size, the format is given exactly when it is not empty |
| Theme.SizedProperties | parceqt/theme.py:156-157 | properties giving only a 10pt size ask for a 10pt format, where the code as written fails |
| Theme.TextFormat | parceqt/theme.py:121-167 | the corrected factory: a format is given exactly when a property produces a setting, and it holds those settings |
| TextEdit.ApplyChanges | parceqt/document.py:82-91 | applied from the last change to the first, each by selecting its range and inserting its text. The result is the original text with every change made at its original offsets |
| TextEdit.RebuildLength | parceqt/document.py:82-91 | the new text is longer by what the changes add and shorter by what they remove |
| TextEdit.OneChange | parceqt/document.py:82-91 | one change replaces exactly its range. An insertion keeps the text before it |
| TextEdit.StepBack | parceqt/document.py:85-90 | with the later changes made, an earlier change's offsets still hold, so making it gives the text with all of them made |
| QtText.InsertedSelected | parceqt/document.py:85-90 | inserting over a cursor's selection and selecting the inserted text gives it back, with the text around it kept |
| ParceDocument.Document.Len | parceqt/document.py:77-80 | the length of the text: characterCount less Qt's closing separator |
| ParceDocument.Document.UpdateText | parceqt/document.py:82-91 | the text with the changes made at their original offsets, and its length |
| ParceDocument.Document.GetText | parceqt/document.py:93-102 | the text between the two positions, whichever comes first |
| ParceDocument.Document.TextChanged | parceqt/document.py:104-106 | nothing changes |
| ParceDocument.Document.FindStartOfBlock | parceqt/document.py:108-113 | the line's start: at or before the position (the text's end for a position past it), at the text's start or after a newline, with no newline in between |
| ParceDocument.Document.FindEndOfBlock | parceqt/document.py:115-120 | the line's end: at or after the position, at a newline or the text's end, with no newline in between |
| ParceDocument.LineAround | parceqt/document.py:108-120 | the block findBlock gives for a position (the last block past the end) is the line holding it: it starts at the text's start or after a newline, ends at a newline or the text's end, and holds no newline |
| ParceDocument.SameLine | parceqt/document.py:108-120 | the start and the end of the block around a position bound one line |
| ParceDocument.Document.TextCursorOf | parceqt/document.py:129-142 | a QTextCursor anchored at the end (the given end, or the text's end for None) and positioned at the start |
| ParceDocument.CursorSelects | parceqt/document.py:93-142 | the cursor's selection is what _get_text gives for its start and end |
| LivelexDocument.Document.Len | livelexqt/document.py:60-63 | the length of the text |
| LivelexDocument.Document.UpdateContents | livelexqt/document.py:65-75 | the text with livelex's collected changes made at their original offsets, and its length |
| LivelexDocument.Document.GetContents | livelexqt/document.py:77-87 | the text between the two positions, whichever comes first |
| LivelexDocument.Document.ContentsChanged | livelexqt/document.py:89-91 | nothing changes |
| LivelexDocument.ChangeReadBack | livelexqt/document.py:65-87 | after a change is made, the contents over where it went are its text, and the text before it is kept |

## Left out

- Qt itself is not modelled. The QTextDocument is reduced to its text and the formats of each block's layout.
- Painting does not model `markContentsDirty`, because it does not change the stored formats.
- The remembered span (`_cursor`, a QTextCursor that keeps its position on insert) is not adjusted when the text is edited. Qt moves its anchor and position with every insertion and removal, so the next interruptible run widens its span by the adjusted selection. Here the span keeps the offsets from before the edit, so the blocks a resumed run repaints can differ from Qt's. An edit that shortens the text below the remembered span leaves SyntaxHighlighter.Valid(), which the drawing methods require.
- The block layouts are not re-synced to the text after an edit. Qt's block bookkeeping is not modelled, so ApplyChanges changes only the text.
- The Formatter's `format_ranges`, livelex's tokens and the document revision check after `processEvents` are parameters (oracles). parce and livelex themselves are not part of this model. The oracles' promise of ordered ranges inside the span is a precondition.
- ParceHighlighter.SyntaxHighlighter.DrawHighlighting: requires start < characterCount, as Qt's findBlock does; a start past the document is not modelled.
- LivelexHighlighter.SyntaxHighlighter.SlotUpdated: requires end < characterCount, the region livelex reports.
- The parce and livelex super() calls (tree building, document change bookkeeping, the Formatter's caches and signal connections) are outside the core; so is delete()'s disconnection.
- The weak-reference instance dictionaries of the SingleInstance helpers are left out. LivelexHighlighter.Registry keeps a plain map from document to highlighter. The ExtraSelectionManager's parent text edit is a flag (`attached`).
- ExtraSelection.ExtraSelectionManager.Highlight: the `msec` timer that clears the highlighting later is not modelled, since clocks are outside the model.
- Format identity `id(text_format)` is a number carried by the format.
- QTextCharFormat is always truthy, so `if text_format:` in clear() is modelled as the Option being present.
- Formatter and Theme: the colour conversion `_color` (a float alpha scaled to 0-255) is not modelled. A CSS colour is kept as a brush of its components.
- Formatter and Theme: Qt 5.13 or later is assumed, so setFontFamilies exists and the AttributeError fallback is not modelled.
- The theme module's `_font_point_size`, `_font_stretch` and `_font_weight` are the same as the formatter module's and are modelled once, in Formatter.
- Falsy CSS values (the empty string, 0, the empty list) are modelled by `Truthy` and by empty sequences. The CSS numbers are reals; floating-point rounding is not modelled.
- TextEdit.ApplyChanges: the edit block that groups the changes for undo is not modelled.
- The document wrappers' html and copy_html methods are left out. They render through Qt's HTML export.
- Debug.DebugTreeBuilder.ReplacePosAsWritten: parce's own replace_pos, which runs before parceqt's comparison, is not part of this model; the TypeError is the first failure in parceqt's code.
- The tree builders' ghost `trace` records each row signal with the child list its context had when it was emitted. What connected views do in response is not modelled.
- Text is a sequence of characters, one position each. Qt counts positions, characterCount and block lengths in UTF-16 code units, so the model assumes text inside the Basic Multilingual Plane. It also assumes no U+00A0 (toPlainText turns it into a space), no U+2028 or U+2029 (turned into newlines), and no "\r" (insertText turns "\r\n" and "\r" into a block separator). ChangeReadBack and InsertedSelected hold for such text only.
- The debug builder's process() (which prints each stage) and process_finished() (which only calls up) are left out. Its replace_root_lexicon is that of parceqt's tree builder, TreeBuilder.TreeBuilder.ReplaceRootLexicon.
- The debug window, the tree view widgets, the language menu and the lexicon chooser are user interface and are left out. So is the work module's background building.
- Integers are unbounded. Positions and counts in the source are Python ints, so no wrap-around applies.

## Findings

| source | as written | input that shows it | evidently intended | confidence | as-written member | corrected member |
|---|---|---|---|---|---|---|
| parceqt/debug.py:297-308 | the rows are reported from get_slice, which keeps a start past the end of the list, while the splice `context[start:start] = nodes` clamps it | a context with three children, the slice `[5:]` and one node: rows 5 to 5 are reported as inserted, but the node lands at row 3 | report the inserted rows where the nodes land, with the start clamped as slice.indices does (as parceqt's own tree builder does) | not executed | Debug.DebugTreeBuilder.ReplaceNodes | Debug.DebugTreeBuilder.ReplaceNodesClamped |
| parceqt/theme.py:156-157 | the point size is computed by `_font_size`, which the module does not define | properties whose only setting is a 10pt font size: the call raises NameError instead of giving a 10pt format | compute it with the module's `_font_point_size(font_size, font_size_unit)`, as the formatter module does | not executed | Theme.TextFormatAsWritten | Theme.TextFormat |
| parceqt/debug.py:310-316 | replace_pos passes the slice to parceqt's replace_pos, which uses it as a row number in `start <= end` | any call, e.g. one child and the slice `[0:1]`: TypeError instead of change_position for row 0 | pass the slice on to parce only, and report the change over the slice's rows from get_slice, as the rest of the method does | not executed | Debug.DebugTreeBuilder.ReplacePosAsWritten | Debug.DebugTreeBuilder.ReplacePos |
