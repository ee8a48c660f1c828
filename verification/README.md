# htmlarc: a verified model

htmlarc stores parsed HTML documents in one archive file. This project models its three stateful
parts in Dafny and proves what they are for:

* **the flat DOM** — an ordered tree kept in one byte buffer of fixed-stride records, edited in place
  by overwriting link slots, packed from three-byte to two-byte links, pruned, and compacted by a
  rebuild;
* **the archive file** — a streaming writer of blobs, compressed text blocks and footer tables, the
  readers of such a file, and the append protocol that survives an interruption after any byte;
* **the concurrent drivers** — the ordered parallel driver of a conversion (a permit semaphore and a
  reorder buffer), the work-stealing sweep, and what is assembled from their results: whole converted
  archives, filtered lists, and Arrow record batches.

`dafny verify dfyconfig.toml` checks everything.

## How it is laid out

Objects the program updates in place are classes whose methods assign the program's own fields
(`Nodes`, `DomInner`, `BundleStrings`, `MetaTableBuilder`, `ArchiveWriter`, `MmapArchive`,
`ArchiveAppender`, `Conversion`); loops are loops. Next to the real fields these classes carry ghost
ones: the records and the ordered forest a node blob spells, the texts a block holds, the documents a
writer has stored. A method's contract ties the new ghost value to the old one, and the theorems are
lemmas about those values.

| layer | modules |
|---|---|
| bytes, lists, sorting | `Wrappers`, `LittleEndian`, `Lists`, `FirstWins`, `Sorting`, `Sums`, `Cutting` |
| trees as values | `Forest`, `ForestEdits` |
| node records and links | `NodeLayout`, `Links`, `Nodes`, `Contiguous` |
| documents | `Dom`, `Walk`, `RevWalk`, `Renumber`, `ExtTags`, `Rebuild`, `Tags`, `Spaces`, `VisibleText`, `Climbing`, `StandIns`, `Pruning`, `Replacing`, `Gaps`, `ReadAround`, `DomEdits` |
| text blocks | `TextBlocks`, `BundleStrings` |
| the file | `Trailer`, `AppendProtocol`, `DocTable`, `Meta`, `Layout`, `Witness`, `Writer`, `Reader`, `Session`, `Appender`, `HtmlArchive`, `FalseTails` |
| concurrency | `Driver`, `Arrivals`, `Convert`, `Sweep`, `ListIndexes`, `Columns`, `Batches` |

Two conventions. A *forest* lists each node's children and gives every node a rank above its parent's,
which rules cycles out; `Pre(f, r)` is the document (pre-) order of the tree at `r`. A tree edit is
stated twice: as the forest after it, and as what it does to the document order read from any node
above.

What zstd and rkyv do is a parameter, `Format`: a serializer that reads back what it wrote and, for every
dictionary and for none, a codec that decodes what it compressed (`Trusted`). `Witness` builds one such
format, so no result about it is vacuous; `Rebuild.SomeCompactorIsReliable` does the same for the
compacted stores. Which dictionary compresses and which decodes is not a parameter but part of the model:
it is the one the trailer names.

## What turned out not to hold

Each of these is stated by a member below with its exact condition or a concrete input.

* `is_contiguous_dfs` is necessary but not sufficient for pre-order contiguity
  (`OrphansPassCheck`, `WrongOrderPassesCheck`); `ContiguousIff` gives the exact local condition.
* A rebuild is meant to keep every node, but its first walk leaves the root out when it marks the class
  and attribute runs in use, and the second pass then finds no place for the root's own. The root loses a
  run exactly if no other live node names the same one (`RebuildDom`, `RootCopied`); `RootRunLost`
  rebuilds a one-node document whose class run is gone afterwards.
* `replace_with` of the document layer stops with a panic when pruning what the replacement left
  empty removed the target's previous sibling and a space is then to be put after it. `ReplaceElement`
  gives the exact condition, all of it read off the document before the call (`Stops`: the sibling is
  emptied, and neither the text before it nor the text from the replacement on has a space there);
  `StoppingReplacement` performs such a call and it stops.
* The replacement may itself be a sibling of the target. The program then asks about a space between
  the node and itself, and puts one right after it (`ReplaceElement`); and after a next sibling was pruned
  away, it still puts a space after the replacement, on the word of the tree that sibling is the root of.
* Pruning is meant to take only what shows no text, but the program's character iterators end at the
  first empty text node, and its whitespace test sees nothing behind one. Pruning, and with it removal and
  replacement, keeps the visible text if and only if no node it takes has any, and which nodes those are is
  told from the document before (`Prune`, `RemoveElement`, `ReplaceElement`). That is always so where no
  text node is empty (`FullIsHarmless`, `FullIsHarmlessWithout`); `LosingRemoval` removes an element and
  loses a text. For the same reason the two space tests look at one text node each (`EndsWithSpace`,
  `StartsWithSpace`).
* Pruning exempts `hr` from its last test, but `hr` is a block and never reaches that test
  (`ClassesApart`, `IsPrunable`).
* The append protocol keeps the old archive readable only as long as the bytes appended so far do not
  end in something that decodes as a trailer (`OldUntilFalseTail`); for one to seven bytes that cannot
  happen (`NoBorder`), later it can: `FalseTail` has a writer append a document whose stored bytes contain
  a trailer. The repository's documentation claims it without the condition.
* Frame ends, block offsets and block counts are 32-bit numbers that wrap around unnoticed, so a bundle
  can be read back if and only if its frames, blocks and raw text each stay below 2^32
  (`CompressPoolBlocks`, `PushDocBlocks`, `Fits`).
* A metadata schema without fields counts zero rows, so an archive with documents cannot be finished
  with one (`RowCountIs`, `Commit`). A refused row leaves the builder ragged, with a table that `open`
  refuses, if and only if its first field accepted its cell (`FailedRowLeavesRagged`, `RaggedRow`).
* `build_batches` promises that no column passes the limit, but measures metadata columns as they stand,
  before the document's own value is added: a string metadata column of some batch passes it exactly if
  the value of some hit, on each of its rows, takes what the hits since the last cut have there past it
  (`MetaPassesLimit`); `MetadataPastLimit` has two hits that do.

## Model

| member | source | states |
|---|---|---|
| NodeLayout.NodeSlotRoundTrip | crates/htmlarc-dom/src/dom/nodes.rs:106-138 | a link slot reads back what was written if and only if the value lies under the width's sentinel; otherwise it reads the value's low bytes, or nothing if those are all ones |
| NodeLayout.U16SlotRoundTrip | crates/htmlarc-dom/src/dom/nodes.rs:140-148 | a store slot round-trips exactly for absent values and values under 0xFFFF |
| NodeLayout.U32SlotRoundTrip | crates/htmlarc-dom/src/dom/nodes.rs:150-156 | a text bound round-trips modulo 2^32 |
| NodeLayout.NarrowRecord | crates/htmlarc-dom/src/dom/nodes.rs:57-105 | where each field of a record with two-byte links stands in its 15 bytes |
| NodeLayout.WideRecord | crates/htmlarc-dom/src/dom/nodes.rs:57-105 | where each field of a record with three-byte links stands in its 20 bytes |
| NodeLayout.SetLinkBytes | crates/htmlarc-dom/src/dom/nodes.rs:913-949 | bytes changed only inside one link slot change that link of that record and no other field of any record |
| NodeLayout.SetTextBytes | crates/htmlarc-dom/src/dom/nodes.rs:963-969 | the text range overlays the child links and ends inside the record at both widths, so writing it disturbs nothing else |
| NodeLayout.SetStoreBytes | crates/htmlarc-dom/src/dom/nodes.rs:951-961 | class and attribute slots are apart from all link slots |
| NodeLayout.RecordFrame | crates/htmlarc-dom/src/dom/nodes.rs:186-188 | a rewrite confined to one stride leaves every other record reading as before |
| NodeLayout.AppendRecord | crates/htmlarc-dom/src/dom/nodes.rs:989-1023 | a stride of bytes appended is one more record and disturbs none |
| NodeLayout.PutRecord | crates/htmlarc-dom/src/dom/nodes.rs:1048-1095 | a whole record written at either width reads back as itself if its links fit, and stays inside its stride |
| Nodes.Nodes.TextRange | crates/htmlarc-dom/src/dom/nodes.rs:290-296 | the bounds read are those of the record spelled by the bytes |
| Nodes.Nodes.FirstChildIndex | crates/htmlarc-dom/src/dom/nodes.rs:272-281 | the first child of the record, and none for a string node, whose slot holds text bounds |
| Nodes.Nodes.LastChildIndex | crates/htmlarc-dom/src/dom/nodes.rs:283-288 | the last child of the record, and none for a string node |
| Nodes.Nodes.ClassListIndex | crates/htmlarc-dom/src/dom/nodes.rs:298-304 | the class run of an element's record, and none for a string node |
| Nodes.Nodes.AttrListIndex | crates/htmlarc-dom/src/dom/nodes.rs:306-312 | the attribute run of an element's record, and none for a string node |
| Nodes.Nodes.SetNodeAt | crates/htmlarc-dom/src/dom/nodes.rs:913-917 | one slot write is one field update on the records the bytes spell |
| Nodes.Nodes.SetTextRange | crates/htmlarc-dom/src/dom/nodes.rs:963-969 | the string node's range is replaced, nothing else |
| Nodes.Nodes.SetClassListIndex | crates/htmlarc-dom/src/dom/nodes.rs:951-955 | only the element's class slot differs afterwards |
| Nodes.Nodes.SetAttrListIndex | crates/htmlarc-dom/src/dom/nodes.rs:957-961 | only the element's attribute slot differs afterwards |
| Nodes.Nodes.AddNodeByte | crates/htmlarc-dom/src/dom/nodes.rs:989-1023 | a zeroed stride filled slot by slot is a blank record with the given links: no children, empty text, no class or attribute run |
| Nodes.Nodes.AddAsNextSibling | crates/htmlarc-dom/src/dom/nodes.rs:573-595 | the links spell the forest with a fresh leaf right after the node; all other payloads stay; a rooted document stays one |
| Nodes.Nodes.AddAsPrevSibling | crates/htmlarc-dom/src/dom/nodes.rs:597-619 | the links spell the forest with a fresh leaf right before the node |
| Nodes.Nodes.AddAsFirstChild | crates/htmlarc-dom/src/dom/nodes.rs:621-640 | the links spell the forest with a fresh first child, in empty and non-empty lists alike |
| Nodes.Nodes.AddAsLastChild | crates/htmlarc-dom/src/dom/nodes.rs:642-671 | the links spell the forest with a fresh last child |
| Nodes.Nodes.RemoveChildren | crates/htmlarc-dom/src/dom/nodes.rs:690-696 | the node's list is empty; the former children are listed nowhere although they keep naming their parent |
| Nodes.Nodes.Remove | crates/htmlarc-dom/src/dom/nodes.rs:698-751 | the subtree is cut loose with its own links intact, its neighbours are joined, and the cursor returned is previous sibling, else next, else parent |
| Nodes.Nodes.UpdateChildrenParent | crates/htmlarc-dom/src/dom/nodes.rs:678-688 | walking right from a node gives every node met the new parent and changes nothing else |
| Nodes.Nodes.UnwrapNode | crates/htmlarc-dom/src/dom/nodes.rs:753-836 | the children take the node's place in its parent's list, the node is left blank and loose, the first child (if any) is returned |
| Nodes.Nodes.ReplaceWith | crates/htmlarc-dom/src/dom/nodes.rs:838-911 | the replacement's whole subtree moves into the target's place, also when it is an adjacent sibling or a descendant of the target; the target is left loose |
| Nodes.Nodes.New | crates/htmlarc-dom/src/dom/nodes.rs:486-493 | a new blob is a rooted document of one node at the wide width |
| Nodes.Nodes.Repack | crates/htmlarc-dom/src/dom/nodes.rs:1048-1095 | the repacked blob spells the very same records if and only if every link fits under the target width's sentinel |
| Nodes.Nodes.IntoOptimalWidth | crates/htmlarc-dom/src/dom/nodes.rs:1029-1039 | up to 58,981 nodes are packed to two-byte links, more are left alone; every accessor answers as before |
| Forest.InPreAll | crates/htmlarc-dom/src/dom/nodes.rs:194-210 | a node is listed among the trees of a list of children exactly when it is in the tree of one of them |
| Forest.InPreUp | crates/htmlarc-dom/src/dom/nodes.rs:194-210 | every node of a tree but its root hangs below a node of the tree |
| Forest.PreNested | crates/htmlarc-dom/src/dom/nodes.rs:194-210 | two subtrees that share a node are nested |
| Forest.PreNoDup | crates/htmlarc-dom/src/dom/nodes.rs:194-210 | a document lists no node twice |
| Forest.EditInside | crates/htmlarc-dom/src/dom/nodes.rs:573-911 | an edit confined to one subtree replaces exactly that subtree's stretch of the document order and keeps what is around it |
| ForestEdits.AddLeafTidy | crates/htmlarc-dom/src/dom/nodes.rs:573-671 | inserting a leaf keeps the tree acyclic, every child listed once and under its own parent |
| ForestEdits.AddLeafDocument | crates/htmlarc-dom/src/dom/nodes.rs:573-671 | the document gains exactly the new leaf, right after the parent's first k subtrees |
| ForestEdits.DetachTidy | crates/htmlarc-dom/src/dom/nodes.rs:698-751 | cutting a subtree loose keeps the forest well formed and leaves the node listed nowhere |
| ForestEdits.DetachDocument | crates/htmlarc-dom/src/dom/nodes.rs:698-751 | the document loses exactly the subtree's stretch, and the subtree itself reads as before |
| ForestEdits.SpliceTidy | crates/htmlarc-dom/src/dom/nodes.rs:753-836 | unwrapping keeps the forest well formed |
| ForestEdits.SpliceDocument | crates/htmlarc-dom/src/dom/nodes.rs:753-836 | unwrapping deletes exactly one entry of the document order: the node itself |
| ForestEdits.ClearKidsDocument | crates/htmlarc-dom/src/dom/nodes.rs:690-696 | dropping the child list deletes exactly the descendants from the document |
| ForestEdits.ReplaceTidy | crates/htmlarc-dom/src/dom/nodes.rs:838-911 | replacement creates no cycle when the replacement is not the target or an ancestor of it |
| ForestEdits.ReplaceDocument | crates/htmlarc-dom/src/dom/nodes.rs:838-911 | in the document without the replacement, the target's stretch is exchanged for the replacement's |
| Links.Neighbours | crates/htmlarc-dom/src/dom/nodes.rs:256-288 | an attached node's links name its neighbours in the parent's list, which are different nodes, and first/last of the parent name it exactly at the ends |
| Links.InsertLinked | crates/htmlarc-dom/src/dom/nodes.rs:573-671 | the slot writes of an insertion, taken together, spell the list with the leaf in it |
| Links.RemoveLinked | crates/htmlarc-dom/src/dom/nodes.rs:698-751 | the slot writes of a removal spell the list without the node |
| Links.UnwrapDone | crates/htmlarc-dom/src/dom/nodes.rs:753-836 | the slot writes of an unwrap, with and without children, spell the spliced list |
| Links.SwapLinked | crates/htmlarc-dom/src/dom/nodes.rs:838-911 | a loose node linked between the target's neighbours spells the list with the target exchanged |
| Links.ReplaceDone | crates/htmlarc-dom/src/dom/nodes.rs:838-911 | both halves of a replacement together spell the forest in which the subtree has moved |
| Contiguous.SubtreeEnd | crates/htmlarc-dom/src/dom/nodes.rs:194-210 | on a pre-order contiguous blob the upward walk ends, and the half-open index range it delimits is exactly the set of proper descendants |
| Contiguous.RangeIsSubtree | crates/htmlarc-dom/src/dom/nodes.rs:194-210 | every subtree of a contiguous document is an index range starting at its root |
| Contiguous.ContiguousPassesCheck | crates/htmlarc-dom/src/dom/nodes.rs:212-223 | true contiguity implies the program's check that parents precede |
| Contiguous.OrphansPassCheck | crates/htmlarc-dom/src/dom/nodes.rs:212-223 | dropping a child list leaves a blob that passes the check but is not contiguous |
| Contiguous.WrongOrderPassesCheck | crates/htmlarc-dom/src/dom/nodes.rs:212-223 | children numbered in the wrong order pass the check although every node is listed |
| Contiguous.ContiguousIff | crates/htmlarc-dom/src/dom/nodes.rs:212-223 | a document is contiguous if and only if every node but the root follows directly on its parent or on its previous sibling's subtree |
| Walk.FindNext | crates/htmlarc-dom/src/iters/element_iter.rs:65-112 | the walk visits what is left of the document in document order, one node a call, and stops exactly when nothing is left |
| ExtTags.EncodeNames | crates/htmlarc-dom/src/stores/ext_tags.rs:49-66 | giving a node a name, by vocabulary slot or overflow entry, names it and leaves all names given before |
| ExtTags.OneName | crates/htmlarc-dom/src/stores/ext_tags.rs:157-169 | a tag byte stands for at most one name per node |
| ExtTags.VocabByteIsName | crates/htmlarc-dom/src/stores/ext_tags.rs:171-177 | nodes of the same extended name have the same byte |
| ExtTags.Find | crates/htmlarc-dom/src/stores/ext_tags.rs:131-155 | the side map is searched correctly: an entry of the node, or the node has none |
| ExtTags.SymAt | crates/htmlarc-dom/src/stores/ext_tags.rs:157-169 | the name read back is the name given |
| Dom.TextPushed | crates/htmlarc-dom/src/dom/dom_inner.rs:78-88 | a range freshly pushed overlaps no other, so replacing and appending text keep all ranges disjoint and in the pool |
| Dom.DomInner.ReplaceText | crates/htmlarc-dom/src/dom/dom_inner.rs:78-81 | the node reads the new text, every other node and the tree as before; the old bytes stay in the pool |
| Dom.DomInner.AppendTextChild | crates/htmlarc-dom/src/dom/dom_inner.rs:55-64 | a fresh last child that reads the text; everything else as before |
| Dom.DomInner.TextRanges | crates/htmlarc-dom/src/dom/dom_inner.rs:361-369 | exactly the non-empty ranges of string nodes, disjoint and inside the pool |
| Renumber.RenumberPre | crates/htmlarc-dom/src/dom/rebuilder.rs:9-66 | reading a subtree and renumbering its nodes commute |
| Renumber.RenumberContiguous | crates/htmlarc-dom/src/dom/rebuilder.rs:9-66 | numbering the live nodes in walk order makes the document contiguous, without dead slots |
| Renumber.ContiguousNumbering | crates/htmlarc-dom/src/dom/rebuilder.rs:9-66 | a contiguous document keeps every number |
| Renumber.RenumberLinked | crates/htmlarc-dom/src/dom/rebuilder.rs:66-160 | live records copied with remapped links spell the renumbered document |
| Rebuild.Number | crates/htmlarc-dom/src/dom/rebuilder.rs:9-66 | the first pass numbers exactly the live nodes in document order and marks exactly what the nodes below the root use |
| Rebuild.CopyAll | crates/htmlarc-dom/src/dom/rebuilder.rs:66-160 | the second pass copies every live node with remapped links, moved store references (none where the run was not marked), an extended tag re-encoded so that it spells the same name, and its text appended to the new pool, which is no longer than the old one |
| Rebuild.TextsFit | crates/htmlarc-dom/src/dom/rebuilder.rs:66-160 | the texts of the live nodes, laid out anew, are together no longer than the pool they come from, so a rebuild never outgrows the text bounds |
| Rebuild.RebuildDom | crates/htmlarc-dom/src/dom/rebuilder.rs:9-160 | the rebuilt document is isomorphic to the live tree; every node but the root has the same tag, an extended one the same spelled name, and the same text, class and attribute run, read back from the class and the attribute store compacted to exactly what nodes below the root use; the root keeps a run if and only if another live node names the same; it is contiguous; its text ranges tile the new pool; and a document that already is so keeps every link and range |
| Rebuild.RootRunLost | crates/htmlarc-dom/src/dom/rebuilder.rs:33-35 | a document of one node with a class run is rebuilt into one without |
| Rebuild.RebuildAgain | crates/htmlarc-dom/src/dom/rebuilder.rs:9-160 | rebuilding a second time changes no link and no text range |
| Tags.ClassesApart | crates/htmlarc-dom/src/html/html_tag.rs:273-340 | no tag is both inline and block; body and summary are neither; hr is a block |
| RevWalk.FindPrev | crates/htmlarc-dom/src/iters/element_iter_rev.rs:47-104 | the reverse walk yields what comes before a node, last first and the root left out, one node a call |
| Spaces.StartsWithSpace | crates/htmlarc-dom/src/dom/dom_inner.rs:94-108 | the first text node after the node in document order exists and begins with a space |
| Spaces.EndsWithSpace | crates/htmlarc-dom/src/dom/dom_inner.rs:110-118 | the last text node before the node in document order exists and ends in a space |
| Spaces.SpaceLastIs | crates/htmlarc-dom/src/dom/dom_inner.rs:110-118 | a stretch ends in a space exactly if its last text node has a text whose last byte is 32 |
| Spaces.SpaceFirstIs | crates/htmlarc-dom/src/dom/dom_inner.rs:94-108 | a stretch starts with a space exactly if its first text node has a text whose first byte is 32 |
| Pruning.InsertSpaceNodeIfNeeded | crates/htmlarc-dom/src/dom/dom_inner.rs:120-136 | exactly when both neighbours are inline and the text has no space on either side, one record is added: a text node reading " ", whose byte is all the pool gains, right after the previous sibling; it adds no visible text; it panics exactly if then the previous sibling is loose |
| VisibleText.SeenIsAll | crates/htmlarc-dom/src/iters/chars_iter.rs:85-116 | among texts none of which is empty the character iterator reaches everything |
| Pruning.AllWhitespace | crates/htmlarc-dom/src/dom/dom_inner.rs:225-236 | the walk answers whether the texts of the subtree, up to the first empty one, are all whitespace |
| Pruning.IsPrunable | crates/htmlarc-dom/src/dom/dom_inner.rs:219-270 | bodies and blocks in which that test sees no text, other elements than br without children |
| Pruning.Prune | crates/htmlarc-dom/src/dom/dom_inner.rs:219-270 | ends; the returned node is a live ancestor-or-self that is itself not prunable, or the root; the nodes that lost their place are exactly those `Removes` names in the document before the call; every tree's visible text is as before if and only if none of those has any; each block that went from between two inline siblings left a text node reading " " exactly in its place if, in the document before the call without it, the text has no space there, and no other record was added; where such a block's parent is still in the tree, a space is there; the cursor is beside the last node that went |
| Pruning.TakeOut | crates/htmlarc-dom/src/dom/dom_inner.rs:250-266 | a node leaves its list, and a space node takes its place if and only if it is a block, its neighbours are inline and, in the document without it, the text has no space there; nothing else is added |
| StandIns.StepBeside | crates/htmlarc-dom/src/dom/dom_inner.rs:286-290 | after a block between two inline siblings was taken out, the text has a space before the second, be it new or old |
| StandIns.PutsUp | crates/htmlarc-dom/src/dom/dom_inner.rs:219-270 | the spaces that a whole climb puts in, each told from the document before the climb |
| StandIns.SpacedUp | crates/htmlarc-dom/src/dom/dom_inner.rs:219-270 | wherever a climb took a block from between two inline siblings and stopped there, a space is left |
| StandIns.CursorUp | crates/htmlarc-dom/src/dom/dom_inner.rs:240-270 | the cursor ends beside the last node the climb takes, told from the document before it |
| Climbing.FullIsHarmless | crates/htmlarc-dom/src/dom/dom_inner.rs:219-270 | where no text node is empty, none of those has any |
| Climbing.ClimbsOn | crates/htmlarc-dom/src/dom/dom_inner.rs:219-270 | after one node is out, spaces put in included, pruning its parent takes the ancestors told from the document before |
| Climbing.RemovedUp | crates/htmlarc-dom/src/dom/dom_inner.rs:219-270 | the climb takes an ancestor exactly if, without the child the climb comes from, it is a body or block in which the test sees no text or another element than br and hr with no other child |
| VisibleText.DetachInk | crates/htmlarc-dom/src/dom/dom_inner.rs:219-270 | cutting off a subtree without visible text changes no tree's visible text |
| VisibleText.AddLeafInk | crates/htmlarc-dom/src/dom/dom_inner.rs:120-136 | a whitespace leaf changes no tree's visible text, nor what the test sees of it |
| DomEdits.RemoveElement | crates/htmlarc-dom/src/dom/dom_inner.rs:276-302 | the returned cursor is in the document, beside the last node that went, however many ancestors were pruned, and the removed node is not; what goes besides it is exactly what taking it away empties, told from the document before; the visible text is that of the bare removal if and only if nothing of that has any; every node that does not hold the removed one keeps its parent, and all keep tag and text; for the node removed and each one pruned, a text node reading " " stands exactly in its place if it was a block between two inline siblings and the text without it has no space there, and no other record was added; between two such siblings a space is left |
| DomEdits.FullIsHarmlessWithout | crates/htmlarc-dom/src/dom/dom_inner.rs:276-302 | where no text node is empty, it has none |
| DomEdits.LosingRemoval | crates/htmlarc-dom/src/dom/dom_inner.rs:276-302 | a div holds an empty text, a text and a b; removing the b takes the div along, and its text is lost |
| DomEdits.ReplaceElement | crates/htmlarc-dom/src/dom/dom_inner.rs:138-166 | the replacement sits where the target was, nodes that hold neither keep their parents, and all keep tag and text; the visible text is that of the bare replacement if and only if nothing that pruning takes of it has any; what pruning takes of it, and which spaces it puts in, is exact; after it, for an inline replacement of a block and for nothing else, a text node reading " " is put right after the previous sibling, and then one right after the replacement, each exactly if both neighbours are inline and the text has no space there; so the replacement ends up with a space before it if its previous sibling is inline and another node, and its next sibling likewise unless it was pruned away; the call panics if and only if, in the document before it, the target is a block, previous sibling and replacement are inline, taking the replacement out empties its ancestors one by one up to that sibling, and without both the text has no space at that place |
| Gaps.Apart | crates/htmlarc-dom/src/dom/dom_inner.rs:157-162 | two considered gaps in a row: where neighbours flow inline, both end up with a space, the first also after the second was filled |
| Gaps.NeighboursKept | crates/htmlarc-dom/src/dom/dom_inner.rs:138-155 | the siblings of the target that pruning leaves in place are next to the replacement |
| Replacing.EmptiedGoes | crates/htmlarc-dom/src/dom/dom_inner.rs:138-155 | pruning after the replacement takes a sibling of the target exactly if the document before the call has the replacement's ancestors emptied up to it |
| ReadAround.AroundReplacement | crates/htmlarc-dom/src/dom/dom_inner.rs:138-166 | once the previous sibling is pruned, the document reads as before around the place, with the replacement's tree alone where the sibling's and the target's stood |
| ReadAround.SpaceBesideIs | crates/htmlarc-dom/src/dom/dom_inner.rs:138-166 | so the space tests after the pruning are two questions about the document before the call |
| Replacing.DirectChild | crates/htmlarc-dom/src/dom/dom_inner.rs:138-155 | an inline element is emptied by losing a child exactly if that was its only child and it is no br |
| DomEdits.StoppingDocument | crates/htmlarc-dom/src/dom/dom_inner.rs:138-166 | builds a five-node document that meets that condition two levels up: an a holding an em that holds only a b, before a div |
| DomEdits.StoppingReplacement | crates/htmlarc-dom/src/dom/dom_inner.rs:138-166 | replacing that div by the b panics |
| TextBlocks.BlockCuts | crates/htmlarc-archive/src/bundle_strings.rs:36-54 | for disjoint ranges in any order: strictly increasing ends that finish at the pool's length and split no range; every end but the last is the end of a range; a block is closed at the first range end 16,384 bytes or more behind its start, so no block but the last is shorter, and a block goes on past that by its last range only; at most the pool length over 16 KiB rounded up |
| TextBlocks.FrameRoundTrip | crates/htmlarc-archive/src/codec.rs:128-201 | a compressed segment decodes to itself, the empty frame standing for no bytes |
| TextBlocks.CompressPoolBlocks | crates/htmlarc-archive/src/codec.rs:108-126 | the frames, cut by the frame ends, decode block by block to the pool cut by the raw ends, if and only if the frames together stay below 4 GiB, because frame ends are 32-bit numbers |
| BundleStrings.BundleStrings.PushDocBlocks | crates/htmlarc-archive/src/bundle_strings.rs:102-125 | the document's blocks go behind the others; the 32-bit tables pass the reader's checks and hold every document's pool, old and new, if and only if frames, blocks and raw text of the bundle each stay below 2^32 |
| BundleStrings.Validate | crates/htmlarc-archive/src/bundle_strings.rs:284-317 | the reader's table check accepts exactly well-formed tables |
| BundleStrings.MaterializeDoc | crates/htmlarc-archive/src/bundle_strings.rs:225-237 | the slot's blocks inflated and joined, or the panic of the first frame that does not inflate |
| BundleStrings.SlotReads | crates/htmlarc-archive/src/bundle_strings.rs:225-237 | of tables that hold a document, those joined blocks are the document's original pool |
| BundleStrings.HoldsOnlyIfFits | crates/htmlarc-archive/src/bundle_strings.rs:102-125 | tables of 32-bit numbers hold their documents only if everything can be numbered |
| BundleStrings.LocateBlock | crates/htmlarc-dom/src/stores/string_source.rs:90-110 | binary search finds the one block that holds an offset |
| BundleStrings.Get | crates/htmlarc-dom/src/stores/string_source.rs:80-130 | a text node read out of the single block it lies in equals the slice of the whole pool |
| BundleStrings.AddDocument | crates/htmlarc-archive/src/writer.rs:258-277 | cutting, compressing and pushing a document adds exactly its pool and nodes, and they can be read back if and only if the bundle still fits |
| LittleEndian.EncodeAt | crates/htmlarc-archive/src/trailer.rs:51-68 | byte k of an encoded number is its digit k in base 256, the lowest first |
| Trailer.TrailerBytes | crates/htmlarc-archive/src/trailer.rs:7-22 | where each of the twelve numbers stands in the 104 bytes, and the eight magic bytes last |
| Trailer.TrailerRoundTrip | crates/htmlarc-archive/src/trailer.rs:51-70 | a written trailer decodes to itself if and only if all five regions lie between header and trailer; else it does not decode |
| Trailer.ReadersAgree | crates/htmlarc-archive/src/trailer.rs:73-127 | the mapped reader and the seeking appender choose the same trailer of every file |
| AppendProtocol.SelectedByReaders | crates/htmlarc-archive/src/trailer.rs:73-145 | both follow one rule: a valid tail wins, else a valid staged offset, else nothing |
| AppendProtocol.NoBorder | crates/htmlarc-archive/src/trailer.rs:31-32 | one to seven bytes after a trailer never complete another |
| AppendProtocol.OldUntilFalseTail | crates/htmlarc-archive/src/trailer.rs:89-108 | while appending, readers see the old trailer if and only if the bytes so far do not end in one that decodes |
| AppendProtocol.StepKeeps | crates/htmlarc-archive/src/writer.rs:140-241 | every byte written, truncation, crash and restart keeps the invariant, and the archive readers see is unchanged or has gained exactly the committed stream |
| AppendProtocol.ReadersSeeCommitted | crates/htmlarc-archive/src/writer.rs:503-545 | in every state of every run of appends, each interrupted anywhere, all readers and the next appender find the same trailer, behind the first archive plus all committed streams, byte for byte |
| AppendProtocol.Completes | crates/htmlarc-archive/src/writer.rs:503-545 | left alone from any point, an append commits exactly its stream and leaves a clean header |
| AppendProtocol.Appends | crates/htmlarc-archive/src/writer.rs:140-241 | whatever state an earlier append was stopped in, the next can start if the trailer found lies below 2^48, and left alone leaves the plain header, the archive as it was and the stream, and nothing else |
| AppendProtocol.FinishedIsClean | crates/htmlarc-archive/src/writer.rs:503-545 | an append that ends leaves no marker and a valid tail |
| AppendProtocol.StageByteKeeps | crates/htmlarc-archive/src/header.rs:74-94 | a torn marker is harmless: the tail is valid, or the bytes rewritten are the ones already there |
| DocTable.SortIndexIs | crates/htmlarc-archive/src/writer.rs:438-446 | with unique keys the sort index is a strictly ordered permutation of the positions |
| DocTable.CompareIs | crates/htmlarc-archive/src/doc_table.rs:38-46 | shorter keys sort first, and keys of one length where they first differ, or one being a start of the other |
| DocTable.FindIndex | crates/htmlarc-archive/src/doc_table.rs:54-69 | a position is found exactly when that document has the key |
| DocTable.CompareTransitive | crates/htmlarc-archive/src/doc_table.rs:38-46 | the order by length and key is transitive |
| DocTable.KeyTotal | crates/htmlarc-archive/src/doc_table.rs:38-46 | keys are totally ordered |
| Meta.ValidateRowIs | crates/htmlarc-archive/src/meta.rs:101-122 | a row is valid exactly when it has one cell per field and each value its field's type |
| Meta.AllFitIs | crates/htmlarc-archive/src/meta.rs:281-352 | rows fit one behind the other exactly if each has the right shape and the texts of each string field stay below 4 GiB together |
| Meta.AppendHolds | crates/htmlarc-archive/src/meta.rs:281-352 | pushing a cell adds that cell, as read back, and changes none before |
| Meta.MetaTableBuilder.PushRow | crates/htmlarc-archive/src/meta.rs:281-352 | succeeds exactly for rows of the right shape and types that overflow no string column, which the rows pushed so far decide, and then the table is rectangular with one row more; a failure names the first field whose cell is refused and leaves exactly the columns before it grown |
| Meta.RowCountIs | crates/htmlarc-archive/src/meta.rs:354-362 | the row count is right if and only if the schema has a field or there is no row |
| Meta.FailedRowLeavesRagged | crates/htmlarc-archive/src/meta.rs:281-362 | after a refused row the finished table is refused on open, whatever the document count, if and only if the first field accepted its cell; then the row count reads one more |
| Meta.RaggedRow | crates/htmlarc-archive/src/meta.rs:281-362 | such a row: a number and a truth value against a schema of two numbers |
| Meta.SchemaSurvives | crates/htmlarc-archive/src/meta.rs:158-200 | the schema read back from a table is the schema it was built with |
| Meta.FromTable | crates/htmlarc-archive/src/meta.rs:263-279 | a table rehydrated for appending holds the same rows and finishes to the same table |
| Meta.ValidateArchived | crates/htmlarc-archive/src/meta.rs:426-492 | accepts exactly tables with known types, parallel columns of the document count and string offsets that only rise and stay in the text |
| Meta.CheckColumn | crates/htmlarc-archive/src/meta.rs:426-492 | the loop over one column's offsets accepts exactly sound columns |
| Meta.FinishedTableReads | crates/htmlarc-archive/src/meta.rs:364-424 | a finished table passes the checks of open, and every cell reads back the value or null pushed |
| Layout.ContentsKept | crates/htmlarc-archive/src/writer.rs:401-411 | writing on at the end of the file disturbs nothing stored |
| Layout.DocAdded | crates/htmlarc-archive/src/writer.rs:341-368 | a blob at the end of the file with a new key keeps regions disjoint, aligned and in bounds, and keys unique |
| Layout.BundleAdded | crates/htmlarc-archive/src/writer.rs:416-435 | a text block over the documents since the last seal makes the bundles tile the doc table again |
| Writer.ArchiveWriter.WriteDocBlocks | crates/htmlarc-archive/src/writer.rs:341-368 | one more document is stored, its frames made with the dictionary the trailer names, and everything before it stays where it was |
| Writer.ArchiveWriter.SetDictionary | crates/htmlarc-archive/src/writer.rs:369-374 | the dictionary the trailer names can be chosen before anything is stored, and nothing else changes |
| Writer.ArchiveWriter.PushEntry | crates/htmlarc-archive/src/writer.rs:258-277 | stores the document if and only if its key is new; a duplicate is only counted |
| Writer.ArchiveWriter.PushSerialized | crates/htmlarc-archive/src/writer.rs:287-311 | as above; it refuses exactly new keys whose text was never compressed, and the key counts as seen even then |
| Writer.ArchiveWriter.SealBundle | crates/htmlarc-archive/src/writer.rs:416-435 | one more bundle over exactly the documents since the last seal, or nothing at all if there are none |
| Writer.ArchiveWriter.Finish | crates/htmlarc-archive/src/writer.rs:450-545 | any sequence of pushes and seals ends in a file whose footer describes exactly what was stored and names the dictionary its frames were made with; it fails exactly on a metadata row count that is not the document count |
| Writer.Assembled | crates/htmlarc-archive/src/writer.rs:450-500 | the five footer regions written in order, and the trailer naming them, make a finished file |
| Writer.TrailerReads | crates/htmlarc-archive/src/writer.rs:480-500 | a finished file's last 104 bytes decode to its trailer |
| Writer.FooterReads | crates/htmlarc-archive/src/writer.rs:140-241 | every region of a finished file reads back as what was written |
| Writer.OpenForAppend | crates/htmlarc-archive/src/writer.rs:140-241 | a writer opened on a finished file continues it: same documents, same keys seen, the compressor built from the dictionary in the file, metadata carried over, every byte kept |
| Reader.Open | crates/htmlarc-archive/src/mmap.rs:66-176 | opens a file exactly when header, trailer, tables, sort index range, bundle tiling, dictionary and metadata pass their checks |
| Reader.OpenedIsSound | crates/htmlarc-archive/src/mmap.rs:66-176 | of a file that opens: the header is the known one, every table lies aligned in the file and deserializes, the sort index has one position in range for each document, the bundles start at 0, follow on each other and end at the last document, and dictionary and metadata are there exactly if their regions are not empty |
| Reader.CheckBundles | crates/htmlarc-archive/src/mmap.rs:105-135 | the loop accepts exactly bundle tables that cover the doc table one after the other |
| Reader.FinishedOpens | crates/htmlarc-archive/src/mmap.rs:66-176 | every finished file passes every check, also with bytes of an interrupted append behind it |
| Reader.MmapArchive.BundleStrings | crates/htmlarc-archive/src/mmap.rs:269-307 | the answer is that of the full check, whether or not the bundle was checked before, and a bundle is marked as checked exactly when it passed |
| Reader.MmapArchive.BundleOf | crates/htmlarc-archive/src/mmap.rs:253-262 | binary search finds the bundle whose range holds the position |
| Reader.MmapArchive.TryDoc | crates/htmlarc-archive/src/mmap.rs:320-346 | the entry in the position's blob and the text slot of its bundle, or exactly the error of the first failing check, overflow, bounds and format of the blob included |
| Reader.ReadDocument | crates/htmlarc-archive/src/mmap.rs:320-346 | position i of a finished archive yields the i-th stored document: its key, checksum, node ranges and body and, decoded with the dictionary the archive names, its text pool, whenever its bundle fits 32-bit tables |
| Session.StreamEndsInTrailer | crates/htmlarc-archive/src/writer.rs:503-545 | what a writer appends to a file ends in a valid trailer, as the append protocol asks |
| Session.WriterResumes | crates/htmlarc-archive/src/writer.rs:140-241 | what opening, pushing and finishing leave is such a stream: it turns the archive into the next version, with every document there was |
| Session.EveryStateOpens | crates/htmlarc-archive/src/writer.rs:503-545 | a run that starts on a finished archive, each append writing what a writer resumed on the archive has made: in every state, crashes included, the file opens, as the version before the append until its last byte is written and as the new version from then on, and always with every document it began with |
| FalseTails.FalseTail | crates/htmlarc-archive/src/trailer.rs:89-108 | a finished archive, and the file a writer makes of it by appending one document: cut after some bytes of what was appended, the file shows bytes of the document as its trailer though the header stages the old one |
| Appender.ArchiveAppender.AddInner | crates/htmlarc-archive/src/append.rs:77-103 | document and row are stored together or not at all, except for a string column that overflows, exactly if the row is refused behind those pushed before; a bad row is refused before anything is written |
| Appender.ArchiveAppender.CountStored | crates/htmlarc-archive/src/append.rs:93-103 | a bundle is sealed exactly at 1,000 documents and the counter is the size of the open bundle |
| Appender.ArchiveAppender.Commit | crates/htmlarc-archive/src/append.rs:118-122 | the file is finished with one sound row per document; it fails exactly for a schema without fields on a non-empty archive |
| FirstWins.FreshIs | crates/htmlarc-archive/src/writer.rs:258-263 | deduplication keeps exactly the first occurrences, in their order, each once |
| FirstWins.FreshConcat | crates/htmlarc-archive/src/writer.rs:220-263 | deduplicating in two sessions, the second knowing the first's keys, is deduplicating the whole |
| HtmlArchive.FromVec | crates/htmlarc-archive/src/archive.rs:285-296 | the bundles laid end to end are the entries, and every bundle but the last has 1,000 |
| HtmlArchive.IndexBundles | crates/htmlarc-archive/src/archive.rs:347-369 | starts are the cumulative counts, and the key index lists every place once in key order |
| HtmlArchive.LocateFlat | crates/htmlarc-archive/src/archive.rs:322-325 | the place of a flat position holds the entry at that position, also across empty bundles |
| HtmlArchive.Locate | crates/htmlarc-archive/src/archive.rs:373-383 | a place with the key, or no place has it, also among duplicate keys |
| HtmlArchive.ReadFrom | crates/htmlarc-archive/src/archive.rs:121-228 | loads any file exactly if header, trailer, tables, bundle tiling, every block, every blob, every frame, dictionary and metadata are in order, and then as what they say |
| HtmlArchive.FinishedLoads | crates/htmlarc-archive/src/archive.rs:121-228 | a finished file whose bundles fit 32-bit tables loads: its stored documents, grouped as its bundle table says, with its metadata |
| HtmlArchive.LoadsOnce | crates/htmlarc-archive/src/archive.rs:121-228 | a file loads as one thing only |
| HtmlArchive.WriteTo | crates/htmlarc-archive/src/archive.rs:333-344 | a finished file of the first document of each key, one bundle for each in-memory bundle that adds any; it fails exactly on a row count that is not the number kept |
| HtmlArchive.Resave | crates/htmlarc-archive/src/archive.rs:66-104 | loading a finished file, decoded with its dictionary, and saving it again without one keeps documents, bundle boundaries and metadata |
| Driver.StepKeeps | cli/htmlarc-convert/src/source/mod.rs:176-288 | every step of every schedule, spurious wake-ups included, conserves permits, keeps each taken rank in exactly one place and loses no wake-up |
| Driver.EmitsInOrder | cli/htmlarc-convert/src/source/mod.rs:222-288 | at any time exactly a prefix of the ranks has been emitted, in order, once each; permits free, held, in flight and owed add up to the cap |
| Driver.FinishedIsComplete | cli/htmlarc-convert/src/source/mod.rs:222-288 | a finished run has emitted every rank's result in order and returned every permit |
| Driver.NeverStuck | cli/htmlarc-convert/src/source/mod.rs:176-288 | from every state that satisfies the invariant and is not final some step of the program itself is possible, without waiting for a spurious wake-up, for any number of workers and permits |
| Driver.CanFinish | cli/htmlarc-convert/src/source/mod.rs:222-288 | every schedule, however it began, can be played to the end |
| Driver.StepDecreases | cli/htmlarc-convert/src/source/mod.rs:222-288 | every step of the program decreases a measure, and a spurious wake-up raises it by one |
| Driver.RunsAreShort | cli/htmlarc-convert/src/source/mod.rs:222-288 | so no run is longer than its initial measure and two steps for each spurious wake-up |
| Driver.InitialMeasure | cli/htmlarc-convert/src/source/mod.rs:222-288 | that bound, in ranks and workers |
| Convert.IntoSerialized | crates/htmlarc-archive/src/entry.rs:134-155 | blocks are cut between text nodes before the text leaves the document, and the blob is the document without its text |
| Convert.CompressBlocks | crates/htmlarc-archive/src/entry.rs:52-63 | the text is replaced by frames that decode to it |
| Convert.DriveRun | cli/htmlarc-convert/src/convert.rs:64-100 | the documents that parse are collected, each with the row that arrived with it: there are rising positions, exactly those of the arrivals that parse, and document and row j are those of position j; the others are counted |
| Arrivals.ParsedAt | cli/htmlarc-convert/src/convert.rs:64-100 | the positions of the arrivals that parse, in order, none left out, with the document and the row of each |
| Arrivals.KeptFrom | cli/htmlarc-convert/src/convert.rs:177-199 | each document kept stands for its place of arrival: places rise, no key is kept twice, every arrival that parses has its key kept at its place or an earlier one, and each row is the one of that place |
| Convert.TrainStringDict | crates/htmlarc-archive/src/codec.rs:33-62 | a dictionary exactly if at least eight samples are not empty, all are at least 4 MiB together, and training yields one that is not empty |
| Convert.SamplesCounted | crates/htmlarc-archive/src/codec.rs:42-48 | which samples count: those that are not empty, and all their bytes together |
| Convert.WarmUp | cli/htmlarc-convert/src/convert.rs:147-164 | the fewest leading runs that hold 2,000 documents, or all |
| Convert.FailsIff | cli/htmlarc-convert/src/convert.rs:177-199 | storing fails exactly if some document kept arrived with a row of the wrong length or with a cell of another type than its field's, or the texts of a string field kept are 4 GiB together, or there is a document but no field |
| Convert.StreamedInOrder | cli/htmlarc-convert/src/convert.rs:208-225 | however workers are scheduled, the coordinator receives the remaining runs in rank order, all of them, compressed with the one shared encoder |
| Convert.Conversion.Store | cli/htmlarc-convert/src/convert.rs:177-199 | a row is pushed exactly when its document was stored; exported and collapsed add up to what was handed over |
| Convert.Conversion.WriteRun | cli/htmlarc-convert/src/convert.rs:226-250 | a run that adds documents is one bundle, a run that adds none is no bundle |
| Convert.Conversion.OnResult | cli/htmlarc-convert/src/convert.rs:226-255 | after a failure results are only counted |
| Convert.Conversion.Run | cli/htmlarc-convert/src/convert.rs:127-270 | the finished archive holds, of each key, the first document any run yields in rank order, row i describing document i; its bundles are the runs that added any; every frame, the workers' and the coordinator's, is made with the dictionary trained from the warm-up, which the trailer names; it fails if and only if there is metadata and the row of some kept document is refused behind those before it, or the schema has no field though a document is kept |
| Convert.ConvertSource | cli/htmlarc-convert/src/convert.rs:127-270 | warm-up, parallel rest and writing together, whichever finished schedule delivers the results: document i of the file is the one of the i-th place of arrival, of each key the first that parses; row i of the metadata table is, cell by cell, the row that arrived there, nulls exactly where none did; a bundle holds what one run adds; the dictionary is the one trained from the fewest leading runs with 2,000 documents; and it fails exactly for what arrived as `FailsIff` says |
| Sweep.ChunkSize | crates/htmlarc-py/src/lib.rs:140-160 | between 1 and 64 documents are claimed at a time |
| Sweep.StepInv | crates/htmlarc-py/src/lib.rs:140-179 | in every schedule each claimed position is with exactly one worker, also across the early-stop store |
| Sweep.SweepOutcome | crates/htmlarc-py/src/lib.rs:140-179 | the sweep fails if and only if some document is unreadable, and otherwise every position is folded exactly once |
| Sweep.NeverStuck | crates/htmlarc-py/src/lib.rs:140-179 | a worker that has not stopped can take its next step |
| Sweep.CanFinish | crates/htmlarc-py/src/lib.rs:140-179 | every sweep, however it began, can be played to the end |
| Sweep.StepDecreases | crates/htmlarc-py/src/lib.rs:140-179 | every step makes progress, so every sweep ends |
| Sweep.ParSweepIsSequential | crates/htmlarc-py/src/lib.rs:115-138 | the workers' hits sorted by position are the hits of one sequential pass |
| Sweep.EverySweepIsSequential | crates/htmlarc-py/src/lib.rs:115-179 | every run of the sweep to its end, in any schedule, collects what one pass over the documents in order collects, or fails exactly if some document is unreadable |
| ListIndexes.KeyDecides | crates/htmlarc-archive/src/filter.rs:43-84 | the key alone gives a verdict exactly where no selector is asked, and then it is the document's; where include keys are named, a kept document has one of them |
| ListIndexes.KeepsIs | crates/htmlarc-archive/src/filter.rs:43-84 | a document is kept exactly if it meets every include rule and does not meet every rule of an exclude that has any |
| ListIndexes.ListedIs | cli/htmlarc/src/helpers.rs:14-60 | the list rises and holds at most n documents, all of them kept; a kept document is missing only behind n listed ones |
| ListIndexes.KeyedList | cli/htmlarc/src/helpers.rs:14-60 | the keyed fast path lists the first n kept documents in document order |
| ListIndexes.Resolve | cli/htmlarc/src/helpers.rs:24-34 | exactly the positions of documents with one of the keys, each once |
| ListIndexes.BundleSweepLists | cli/htmlarc/src/helpers.rs:60-103 | in every schedule the bundle sweep lists the same as the keyed path |
| Columns.RebasedCells | crates/htmlarc-py/src/lib.rs:1573-1582 | a chunk rebased behind a column adds its cells, nulls included, and changes none before |
| Columns.AppendCol | crates/htmlarc-py/src/lib.rs:1573-1582 | fails exactly past the 32-bit offset ceiling; offsets start at 0, never fall and end at the data's length |
| Columns.CopyByDoubling | crates/htmlarc-py/src/lib.rs:1812-1826 | the doubling copy yields the key repeated once per row |
| Columns.AppendKey | crates/htmlarc-py/src/lib.rs:1812-1832 | the key column gains the key on each row, and fails exactly past the ceiling |
| Columns.AppendStr | crates/htmlarc-py/src/lib.rs:1631-1683 | a string column gains the value or null on each row, and fails exactly past the ceiling |
| Columns.AppendMeta | crates/htmlarc-py/src/lib.rs:1631-1683 | a metadata column of any type gains the value, or null for an absent or ill-typed one, on each row; it fails exactly for a string that passes the ceiling |
| Batches.AppendDoc | crates/htmlarc-py/src/lib.rs:1741-1869 | a batch gains one document's rows in every column at once, or fails, exactly if some column has no room under the ceiling |
| Batches.BuildBatches | crates/htmlarc-py/src/lib.rs:1741-1869 | every batch holds, in every column, its group of the hits; it fails if and only if some hit finds no room under the 32-bit ceiling behind the hits since the last cut, for any limit; where the groups are cut is told by `CutIsForced` and `GroupsAreSized` |
| Batches.CutIsForced | crates/htmlarc-py/src/lib.rs:1772-1869 | between two groups there is a cut only because, with the next hit, the keys, the texts, or the values of some attribute column of the group before would be over the limit together, or those of a string metadata column already are |
| Batches.TextsShare | crates/htmlarc-py/src/lib.rs:1772-1869 | two hits with a byte of text each share a batch under a limit of 1 GiB |
| Batches.CellOf | crates/htmlarc-py/src/lib.rs:1631-1683 | the metadata cell of a hit: its value if it is of the column's type, else null |
| Cutting.GroupsAreAll | crates/htmlarc-py/src/lib.rs:1772-1869 | the groups are all the hits, in order |
| Cutting.CutsAreNeeded | crates/htmlarc-py/src/lib.rs:1772-1869 | whatever the rule, a cut is made only where it asks for one |
| Batches.GroupsAreSized | crates/htmlarc-py/src/lib.rs:1772-1869 | no group is empty; one of several hits keeps key, text and attributes within the limit, and every group its string metadata without its last hit's value |
| Batches.MetaPassesLimit | crates/htmlarc-py/src/lib.rs:1786-1800 | a string metadata column of some batch passes the limit if and only if, for some hit, its value once per row and those of the hits since the last cut together do |
| Batches.MetadataPastLimit | crates/htmlarc-py/src/lib.rs:1786-1800 | two one-row hits of different keys and positions, one byte of metadata each, end up in one batch of two bytes under a limit of one |
| Batches.BatchesAreTheTable | crates/htmlarc-py/src/lib.rs:1741-1869 | decoded and concatenated, the batches are the table with one row per match, in every column including nulls |
| Batches.TableRow | crates/htmlarc-py/src/lib.rs:1741-1869 | row by row: behind the rows of the hits before it, row j of a hit has the hit's key, the stretch of its text between two of its ends, its attributes likewise or null where they are not valid, and in each metadata column the value of its position, or null for an absent or ill-typed one |
| Batches.TableEnds | crates/htmlarc-py/src/lib.rs:1741-1869 | every column of the table has exactly the rows of all hits |
| Batches.NoRoomIsTooLong | crates/htmlarc-py/src/lib.rs:1741-1869 | with a limit under the ceiling, only a hit too long by itself finds no room |

## Left out

- zstd, rkyv, memory mapping and file-system calls: a codec per dictionary that decodes what it compressed, a serializer that reads back what it wrote and pads text blocks to multiples of 8, and files as byte sequences stand in for them. Training a dictionary from samples is a function that may return anything.
- Power loss and reordered storage writes: writes happen in order and a crash loses none of those made.
- Run stores, symbol tables and the union of attribute-name symbols in a rebuild: `Rebuild` takes a compaction that keeps every marked run and the spelling of every marked name.
- Counts past 32 bits of documents and of bundles, key lengths past 16 bits, and offsets past 64 bits are unbounded numbers; the file's size limit appears where a trailer, blob or block is decoded. The 32-bit wrap of a bundle's text tables is modelled.
- Nodes.Nodes.AddNodeByte: asks for a free node number; the program panics on a full document.
- Pruning.Prune: takes the whitespace test as a function of the text's bytes, and asks for room for one space node per pruned ancestor.
- Writer.ArchiveWriter.PushEntry: asks that the compressor's dictionary is the one set, as the program's documentation of `set_dictionary` demands (crates/htmlarc-archive/src/writer.rs:369-371); a writer that mixes them stores text its reader cannot decode.
- HtmlArchive.Resave: asks that every bundle fits its 32-bit tables, because the tables of one that does not are not those of its texts, and that text nodes do not overlap, because the program relies on it when it cuts blocks.
- Convert.DriveRun: parsing and serializing are given as arrivals that yield a document or do not.
- Driver.StepKeeps: what happens under the mutex is a single step, as are the notification and each channel operation; a wake-up may go to any sleeper.
- Sweep.SweepOutcome: the thread pool and its fallback for overlapping sweeps are a fixed number of workers; the position counter does not wrap.
- `unwrap_element` and `remove_formatting` of the document layer: they combine an unwrap with the space test and add nothing to the two.
- The walk's recovery from edits made during an iteration; the linear sweeps over contiguous documents.
- `pack_to` from HTML files and `create_diff_indexes`: easy members beside `Appender` and `ListIndexes`.
- HTML and CSS parsing, pretty-printing, Python and Arrow conversion, WARC, ZIM and directory readers, the command line, probes and statistics.
