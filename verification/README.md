# Verified models of four components of djmount and its libraries

djmount mounts UPnP media servers; it carries an XML library (`libupnp/ixml`), a hierarchical
allocator (`talloc`), a thread pool with a timer (`libupnp/threadutil`) and a hash table (`gl/hash.c`).
This project models the parts of them that keep state and proves what that state keeps;
`dafny verify dfyconfig.toml` covers all of it.

**XML.** `ParserSpec` is the pull parser as a function of its state (position, token buffer, mode,
element stack, path of open elements), one turn of the loop at a time; `Parser` is the same code as
loops over a class, each method proved to do what the function says. `ParserInvariant` shows that the
stack mirrors the path and that what is read of an accepted input is the tree returned. `Printer` is the recursive printer;
`RoundTrip`, `Reparse` and `ReparseTree` prove that parsing undoes printing on the documents of
`PrintableDocument`: at most one root; elements and text; text not blank and only as a last child; names
without `:`; distinct attribute names other than `xmlns`; values without `"`, `<`, `&`, and none rather than
empty. `ParsedTrees` says what every tree out of the parser is like, and `ComesBack` that the limits are exact:
no other tree comes back. `Drafts` is the syntax with the freedom it leaves, from references to comments, and
`DraftDocuments` proves that every document written in it is parsed as what it means. `PrintLines` fixes the bytes
printed. `PrintLimits` shows what becomes of two families of the others.

**talloc.** `Talloc` keeps chunks in a map from addresses, links them as the macros do, and carries the
abstract forest (`Forest`: children, parent, ancestors, references) as a ghost field that every method
keeps in agreement with the memory (`TallocHeap.Represents`). `FreeSpec` says what freeing does without
following the recursion: what goes, what is spared, who moves where; `AllocatedTrees` is about trees that were
allocated. `limbo` is the set of chunks unlinked
by a free that is still going on; the interface is called with none.

**Hash table.** `HashTable` has the bucket heads in an array, the overflow cells in a map from addresses, a
free list, and a ghost account that places every cell in exactly one chain or on the free list.
`HashSpec` says what the operations do to the contents bucket by bucket and what that means for the set of
entries modulo the comparator; `HashSizing` is the arithmetic of growing and shrinking on exact numbers,
`Primes` the search for a size, and `HashRuns` is about whole sequences of operations.

**Thread pool and timer.** `PoolMachine` is a state machine whose steps are the stretches run under the mutex;
waiting on a condition, such as in CreateWorker, ends a step, so calls and workers interleave freely.
`PoolJobs`, `PoolTimes`, `PoolWorkers`, `PoolLimits`, `PoolPriorities`, `PoolIds` and `PoolClashes` are about
all its runs; `ThreadPool` has the stretches as methods of a class proved against the functions the machine
uses. `TimerThread` does both for the timer. `LinkedList` is the list with sentinels on real node objects,
with its recycler.

**Document changes.** `Dom` has append, insert, replace, remove and the search for ancestors on nodes linked by
parent, first child and sibling pointers, with the forest as ghost state.

Where code and documentation differ, the code is modelled:

- `hash_initialize` promises room for the candidate number of entries (gl/hash.c:506-513); truncation at line
  569 costs one (`HashSizing.GuaranteeFails`, `HashSizing.GuaranteeExactly`).
- ThreadPoolInit promises never more threads than the limit (libupnp/threadutil/src/ThreadPool.c:664-666); that
  needs at most one caller inside CreateWorker (`PoolWorkers.NeverTooMany`, `PoolLimits.LimitExceeded`).
- ThreadPoolAdd and ThreadPoolAddPersistent promise the id of the job, but two jobs may have one: the id is
  taken when the job is accepted and counted when the call returns, which waits in between for a worker to start
  or to take the job. Any job accepted in that time has the same id (`PoolIds.IdsDistinctExactly`), and every pool
  has runs in which that happens (`PoolClashes.ClashExactly`).
- A free list of 100 keeps at most 99 elements (libupnp/threadutil/src/FreeList.c:128-130).
- A job or event may be added while shutdown waits with the mutex released; it is never run or handed over
  (`PoolTimes.NoneBeginsAfterShutdown`, `TimerThread.NoneAfterShutdown`).
- Events of the same time are handed over newest first (libupnp/threadutil/src/TimerThread.c:362-374;
  `TimerThread.HandedNewestFirst`).
- `ixmlNode_isAncestor` also searches the later siblings of its first argument; `Dom.Dom.IsAncestor` states
  exactly what it answers.

## Model

| member | source | states |
|---|---|---|
| Utf8.DecodeEncoded | libupnp/ixml/src/ixmlparser.c:357-458 | decoding what was encoded gives back the character and the number of bytes, for all six lengths of section 2 of RFC 2279, wherever the bytes stand in a text |
| Escape.CopyWithEscape | libupnp/ixml/src/ixml.c:40-78 | the loop appends to the buffer exactly the escaped form of the text, and leaves what was there |
| Escape.EscapedHasNoMarkup | libupnp/ixml/src/ixml.c:40-78 | escaped text contains none of the characters less-than, greater-than and the two quotes |
| Escape.GetCharIsXml | libupnp/ixml/src/ixmlparser.c:1115-1201 | a character the parser accepts is a legal XML character and takes at least one byte inside the buffer |
| Escape.CopyInvertsWriting | libupnp/ixml/src/ixmlparser.c:1211-1255 | copying a token read at any place of a buffer undoes writing it there, escaped or raw |
| Escape.UnescapeInvertsEscape | libupnp/ixml/src/ixmlparser.c:1115-1255 | for every sequence of legal characters, unescaping the escaped encoding gives back the encoding |
| Scanner.TokenCopies | libupnp/ixml/src/ixmlparser.c:1490-1551 | the token the scanner delimits is one the copying loop accepts, so its length is the length of what was copied |
| ParserSpec.TurnDecreases | libupnp/ixml/src/ixmlparser.c:919-1003 | every turn of the parse loop that goes on decreases twice the input left plus one in content mode, for every input, the turns that back up included |
| ParserInvariant.TurnKeepsInvariant | libupnp/ixml/src/ixmlparser.c:504-591 | at every turn the element stack, top to bottom, is the names from the current node up to the document; there is at most one root; a remembered last element is the open one |
| ParserInvariant.CompleteTagMatches | libupnp/ixml/src/ixmlparser.c:2443-2456 | a `/>` always closes the element it belongs to |
| ParserInvariant.AcceptedIsBalanced | libupnp/ixml/src/ixmlparser.c:753-849 | from any state that keeps the invariant, the tags, attributes and text read until acceptance complete those read before to the tree returned, in document order |
| ParserInvariant.ParseIsBalanced | libupnp/ixml/src/ixmlparser.c:893-1020 | an accepted input has balanced, matching tags: the tags, attributes and text read are exactly those of the tree returned, in order, and the tree has at most one root |
| Printer.PrintAttributeNodes | libupnp/ixml/src/ixml.c:122-133 | writes an attribute and all its later siblings, separated by spaces, values raw |
| Printer.PrintDomTreeRecursive | libupnp/ixml/src/ixml.c:86-176 | the recursive printer appends the printed form of a node and its later siblings to the buffer; after a text node it stops |
| ReparseTree.PrintThenParse | libupnp/ixml/src/ixmlparser.c:893-1020 | print then parse is the identity: parsing the printed form of any printable document accepts and rebuilds the same tree, despite the new lines added |
| PrintLines.PrintedAsTags | libupnp/ixml/src/ixml.c:86-176 | the bytes printed: tags, attributes and text in document order, with a new line after a start tag that another follows and after an end tag that no text follows, and nowhere else |
| DraftChars.GetSpelled | libupnp/ixml/src/ixmlparser.c:1115-1201 | a character is read as what it means however it is spelled: as itself, as a named reference in any mix of cases, or as a decimal or hexadecimal number |
| DraftChars.CopySpelled | libupnp/ixml/src/ixmlparser.c:1211-1255 | copying a text spelled that way gives the encoding of the characters meant |
| DraftTags.AttrTurnAt | libupnp/ixml/src/ixmlparser.c:2292-2399 | an attribute with either kind of quote and white space around its parts is read in one turn, with the value meant |
| DraftParse.ParseDrafts | libupnp/ixml/src/ixmlparser.c:919-1003 | siblings however they are written, comments, instructions and blanks among them, add the nodes they mean |
| DraftDocuments.PrologSkipped | libupnp/ixml/src/ixmlparser.c:1348-1378 | white space, a declaration up to its end, and comments and instructions are skipped up to the root |
| DraftDocuments.DraftsParse | libupnp/ixml/src/ixmlparser.c:893-1020 | every well-written document is accepted and gives the tree it means: with or without a declaration, with references for characters, either quote, white space inside tags, empty-element tags, and comments and instructions anywhere between nodes |
| DraftDocuments.DeclaredPrintThenParse | libupnp/ixml/src/ixmlparser.c:1360-1375 | a printed document with any declaration and white space in front comes back like the one without |
| ParsedTrees.ParseParsed | libupnp/ixml/src/ixmlparser.c:893-1020 | whatever the input, an accepted tree has at most one root, an element; names and characters are legal; attribute names of an element differ; no value is empty |
| ComesBack.BadValue | libupnp/ixml/src/ixmlparser.c:2356-2375 | a value with a double quote, a less-than sign or an ampersand in it, printed raw, is read as another value or not at all |
| ComesBack.ComesBackExactly | libupnp/ixml/src/ixml.c:86-176 | the exact limits, over all trees: the tree comes back from its printed form if and only if it is a printable document (one element; text legal, not blank and last; names legal; attribute names distinct; values legal, without quote, less-than sign and ampersand, and none rather than empty) |
| PrintLimits.LaterSiblingsOfTextAreLost | libupnp/ixml/src/ixml.c:101-103 | why text must come last: with anything behind a text node the document prints like the one without it, and comes back as that one |
| PrintLimits.EmptyValueIsLost | libupnp/ixml/src/ixmlparser.c:2356-2375 | why an empty attribute value must be none: both print alike and come back as none |
| Parser.Parser.ReadDigits | libupnp/ixml/src/ixmlparser.c:1156-1190 | the digits of a numeric reference are read up to the first other byte and summed in their base |
| Parser.Parser.ReadChar | libupnp/ixml/src/ixmlparser.c:1115-1201 | reads one character or reference, as the specification of a character says |
| Parser.Parser.CopyToken | libupnp/ixml/src/ixmlparser.c:1210-1255 | appends the translated bytes of a token to the token buffer, or fails |
| Parser.Parser.SkipMisc | libupnp/ixml/src/ixmlparser.c:1459-1480 | skips white space, comments and processing instructions; a second XML declaration is an error |
| Parser.Parser.GetNextToken | libupnp/ixml/src/ixmlparser.c:1490-1551 | the next token, its length and the place behind it |
| Parser.Parser.ProcessSTag | libupnp/ixml/src/ixmlparser.c:1810-1864 | the start of an element, or the switch to an end tag |
| Parser.Parser.ProcessETag | libupnp/ixml/src/ixmlparser.c:2133-2175 | the end tag after its opening |
| Parser.Parser.ProcessContent | libupnp/ixml/src/ixmlparser.c:2022-2124 | text up to the next `<`, translated, or the switch to element mode; blank text before a `<` is dropped |
| Parser.Parser.ProcessAttribute | libupnp/ixml/src/ixmlparser.c:2292-2399 | one attribute with its quoted value; the mode after it |
| Parser.Parser.GetNextNode | libupnp/ixml/src/ixmlparser.c:2409-2473 | the next node in the current mode |
| Parser.Parser.ETagVerification | libupnp/ixml/src/ixmlparser.c:824-849 | an end tag must name the element on top of the stack |
| Parser.Parser.ProcessElementName | libupnp/ixml/src/ixmlparser.c:753-815 | a new element becomes the current node and goes on the stack; a second root is an error |
| Parser.Parser.ProcessAttributeName | libupnp/ixml/src/ixmlparser.c:719-745 | an attribute is added to the current element unless it has one of that name |
| Parser.Parser.SkipProlog | libupnp/ixml/src/ixmlparser.c:1348-1378 | what may stand before the root is skipped |
| Parser.Parser.ParseDocument | libupnp/ixml/src/ixmlparser.c:893-1020 | the loop over nodes, tree and stack returns for every buffer what the parse function gives |
| Forest.DetachedTree | talloc/talloc/talloc.c:549-560 | cutting a chunk off keeps a forest: ancestors without cycles, children and parents in agreement, handles one to one with references |
| Forest.AttachedTree | talloc/talloc/talloc.c:712-726 | so does hanging a tree below a chunk outside it |
| Forest.ReferencedTree | talloc/talloc/talloc.c:247-265 | so does adding a reference |
| TallocHeap.BypassRepresents | talloc/talloc/talloc.c:136-146 | unlinking a chunk from its siblings leaves well-linked lists with the parent pointer on the head only, for the forest without that edge |
| TallocHeap.HookRepresents | talloc/talloc/talloc.c:121-133 | linking a chunk in front of a list of children does, for the forest with that edge |
| TallocHeap.RefAddedRepresents | talloc/talloc/talloc.c:253-264 | linking a handle in front keeps the list of references well linked |
| TallocHeap.RefRemovedRepresents | talloc/talloc/talloc.c:231-236 | taking a handle out of the list of references, wherever it is, keeps it well linked |
| Talloc.Talloc.ParentChunk | talloc/talloc/talloc.c:152-157 | walking back to the first sibling finds the true parent |
| Talloc.Talloc.IsParent | talloc/talloc/talloc.c:539-546 | a chunk is reported exactly when it is the context or one of its ancestors |
| Talloc.Talloc.Steal | talloc/talloc/talloc.c:676-726 | the chunk becomes the first child of a context outside its subtree, or a root, with everything below it; no other chunk changes and all links stay right |
| Talloc.Talloc.Free | talloc/talloc/talloc.c:533-597 | a referenced chunk only loses its newest handle and -1 is returned; one already being freed gives 0; one whose destructor refuses stays with -1; otherwise exactly the chunks not at or below a referenced one go, with the newest handle of each topmost referenced chunk, which moves to that handle's owner |
| Talloc.Talloc.FreeChildren | talloc/talloc/talloc.c:493-523 | all children are freed or moved, while the parent is unlinked and flagged |
| Talloc.Talloc.ReleaseChild | talloc/talloc/talloc.c:501-522 | one turn of the loop: a child that cannot be freed moves to the owner of its newest handle, computed before the child is freed |
| FreeSpec.FreedOfKids | talloc/talloc/talloc.c:493-597 | what is freed with an unreferenced chunk is the chunk itself and what is freed with its children |
| FreeSpec.FreedSplits | talloc/talloc/talloc.c:499-522 | freeing siblings one after the other frees the union, and moves the disjoint union |
| FreeFrame.OneMoreSibling | talloc/talloc/talloc.c:499-522 | freeing one child leaves its siblings and all below them as they were, so the steps of the loop compose |
| FreeFrame.FreeComplete | talloc/talloc/talloc.c:547-597 | destructor, unlinking, children and the chunk itself together do what freeing is said to do |
| FreeSpares.GoneUnlessHeld | talloc/talloc/talloc.c:493-597 | a chunk at or below the one freed goes exactly when no referenced chunk is at or above it |
| FreeSpares.SparesReferenced | talloc/talloc/talloc.c:493-597 | each topmost referenced chunk keeps its whole subtree, loses its newest handle and no other, and becomes a child of that handle's owner |
| Talloc.Talloc.Alloc | talloc/talloc/talloc.c:168-205 | a fresh chunk without children or references becomes the first child of the context, or a root; all other chunks keep parents, children, references, sizes and destructors; too large a size gives NULL and changes nothing |
| AllocatedTrees.TreeGoes | talloc/talloc/talloc.c:168-205 | freeing a chunk frees all that was allocated below it, at any depth, and nothing else |
| Talloc.Talloc.SetDestructor | talloc/talloc/talloc.c:214-218 | one chunk gets another destructor and nothing else changes |
| Talloc.Talloc.Reference | talloc/talloc/talloc.c:247-265 | a new handle, the first child of the context, becomes the newest reference to the target; nothing else changes |
| Talloc.Talloc.Unreference | talloc/talloc/talloc.c:272-294 | the newest handle owned by the context goes, or -1 and no change if there is none |
| Talloc.Talloc.UnlinkFrom | talloc/talloc/talloc.c:300-347 | succeeds exactly when the context is among the owners (and, for an unreferenced chunk, the destructor agrees), and then takes it away once; otherwise -1 and nothing changes |
| Ownership.UnlinkedByHandle | talloc/talloc/talloc.c:312-314 | an owner through a handle: the multiset of owners loses that context once and the chunk stays |
| Ownership.UnlinkedByParent | talloc/talloc/talloc.c:332-346 | the parent as owner: the owner of the newest handle becomes the parent, and the multiset of owners loses the old parent once |
| Ownership.NoOwnersLeft | talloc/talloc/talloc.c:326-330 | the context is the only owner exactly when there are no references and it is the parent |
| Relocate.RenamedTree | talloc/talloc/talloc.c:620-668 | giving a chunk another address keeps a forest |
| Relocate.RelocatedRepresents | talloc/talloc/talloc.c:646-662 | redirecting the four kinds of neighbours is enough: the memory represents the same forest under the new address |
| Talloc.Talloc.Realloc | talloc/talloc/talloc.c:605-669 | size 0 frees, too large a size or a referenced chunk gives NULL with nothing changed, NULL allocates below the context, and otherwise the forest is the same with the chunk at its new or old address, other sizes and destructors untouched |
| Talloc.Talloc.Total | talloc/talloc/talloc.c:731-759 | the recursion that sets and clears a flag returns the sum of the sizes at or below the chunk and leaves the memory as it was |
| TotalSize.SizeGrows | talloc/talloc/talloc.c:749-756 | the sum over the children is built one child at a time |
| Primes.IsPrime | gl/hash.c:434-448 | trial division by odd numbers, with the running square, decides primality of every odd number from 5 on |
| Primes.AnotherPrime | gl/hash.c:454-467 | there is always a larger prime, so the search ends |
| Primes.NextPrime | gl/hash.c:454-467 | the least prime at or above both the candidate and 10 |
| HashSizing.NoEarlyGrowth | gl/hash.c:564-574 | a table initialised for some entries is not too full while fewer buckets are used than that |
| HashSizing.GuaranteeExactly | gl/hash.c:506-513 | the documented guarantee, that the candidate number of entries fits, fails exactly when the quotient is truncated to a prime from 10 on, which is then the size |
| HashSizing.GuaranteeFails | gl/hash.c:564-574 | it fails for nine entries and default tuning |
| HashSizing.EnlargedExactly | gl/hash.c:948-969 | a growth gives more buckets exactly when the tuning counts buckets, or the truncated number of entries asked for is at least what one more bucket than now would hold |
| HashSizing.DefaultEnlarges | gl/hash.c:948-969 | with default tuning a growth always asks for more buckets |
| HashSizing.BucketsEnlarge | gl/hash.c:957-962 | so it does with any reasonable tuning that counts buckets |
| HashSizing.GrowthMayStall | gl/hash.c:957-962 | but not with every reasonable tuning |
| HashSpec.StoredIsTheOne | gl/hash.c:742-806 | searching one bucket is enough: an equal entry is found exactly when the table has one |
| HashSpec.RehashedKeeps | gl/hash.c:817-899 | rehashing keeps the multiset of entries and puts each in the bucket its hash gives for the new size |
| HashSpec.InsertedSet | gl/hash.c:906-946 | adding an entry equal to none keeps entries pairwise unequal and each in its bucket, and counts buckets used |
| HashSpec.DeletedSet | gl/hash.c:981-992 | taking one out does |
| HashSpec.InWalk | gl/hash.c:296-317 | where an entry comes in the walk, and what comes after it |
| HashSpec.OnceInWalk | gl/hash.c:277-345 | no entry comes twice in a walk |
| HashCells.Popped | gl/hash.c:703-722 | taking the first cell off a list leaves every other cell in exactly one place |
| HashCells.Pushed | gl/hash.c:728-733 | so does putting a cell in front |
| HashCells.Bypassed | gl/hash.c:784-800 | so does unlinking a cell from the middle of a chain |
| HashTable.HashTable.AllocateEntry | gl/hash.c:703-722 | the first free cell, or a new one only if none is free; no chain changes |
| HashTable.HashTable.FreeEntry | gl/hash.c:728-733 | the cell becomes the first free one; no chain changes |
| HashTable.HashTable.FindEntry | gl/hash.c:742-806 | the stored entry equal to the one asked for; with deletion the contents are those without it, the cell is on the free list and no cell is lost |
| HashTable.HashTable.MoveCell | gl/hash.c:846-885 | an overflow cell of the old table moves into the new chain, or its entry fills an empty head and the cell is recycled |
| HashTable.HashTable.MoveAll | gl/hash.c:833-886 | the walk over the old table places every entry, in order, and counts the buckets used |
| HashTable.HashTable.Rehash | gl/hash.c:817-899 | the new contents are all entries placed in order into the new number of buckets, n_buckets_used is the number of non-empty ones, and every old cell is still in a chain or free; it fails only for unreasonable tuning, changing nothing |
| HashTable.HashTable.GrowIfNeeded | gl/hash.c:942-971 | whether and to what size a table that may be too full grows, and what becomes of its tuning |
| HashTable.HashTable.ShrinkIfNeeded | gl/hash.c:993-1017 | the same for one that may be too empty |
| HashTable.HashTable.Insert | gl/hash.c:906-974 | returns the equal entry already there and changes nothing, or adds the entry behind the head of its bucket and grows as the tuning says |
| HashTable.HashTable.InsertedSetOf | gl/hash.c:906-974 | as a set: nothing is added if an equal entry is there, otherwise exactly the new one, whatever growth happened |
| HashTable.HashTable.Delete | gl/hash.c:981-1020 | takes out and returns the equal entry, shrinking as the tuning says, or returns NULL and changes nothing |
| HashTable.HashTable.DeletedSetOf | gl/hash.c:981-1020 | as a set: exactly the one equal entry goes, and afterwards none is equal |
| HashRuns.RunRefines | gl/hash.c:248-1020 | over any sequence of insertions, deletions, lookups and clearings, with all growths and shrinks, the table holds the set they describe modulo the comparator, each entry in its bucket and none twice, and every answer is that of the set |
| HashRuns.NoGrowthBeforeCandidate | gl/hash.c:564-574 | over any sequence of operations a table initialised for some entries keeps its number of buckets until that many have been inserted, provided it does not shrink on deleting |
| HashRuns.RunResizes | gl/hash.c:942-1017 | over any sequence of operations the tuning stays, a table grows exactly when an insertion into an empty bucket overfills it and shrinks exactly when a deletion that empties a bucket underfills it, to the least prime at or above ten and the size asked for; otherwise it keeps its size |
| HashRuns.DefaultResizes | gl/hash.c:948-969 | with default tuning a table of n buckets gets strictly more, by the factor 1.414, as soon as more than eight tenths are used, and never changes its size otherwise |
| HashTable.HashTable.Lookup | gl/hash.c:248-265 | returns an entry exactly when the table has an equal one |
| HashTable.HashTable.Clear | gl/hash.c:603-638 | no entries, all cells kept for reuse, and each entry handed to the freer once |
| HashTable.HashTable.Initialize | gl/hash.c:538-596 | an empty table whose size is the least prime at or above ten and the truncated quotient of candidate and threshold, or NULL exactly when the tuning is unreasonable |
| HashTable.HashTable.GetFirst | gl/hash.c:277-289 | the first entry of the walk, NULL when the table is empty |
| HashTable.HashTable.GetNext | gl/hash.c:296-317 | the next entry of the walk, NULL after the last |
| HashTable.HashTable.GetEntries | gl/hash.c:324-345 | the entries in walking order, as many as fit |
| PoolQueues.BumpedFeeds | libupnp/threadutil/src/ThreadPool.c:194-250 | looking only at the heads is enough: after moving jobs up no low job has waited the idle time and no medium job has been there for the starvation time, provided low jobs are in order of request |
| PoolQueues.BumpedKeepsHigh | libupnp/threadutil/src/ThreadPool.c:194-250 | the high queue only grows at its end |
| PoolTimes.BoundedStarvation | libupnp/threadutil/src/ThreadPool.c:459-519 | in every run with a clock that does not go back, right after a worker stopped waiting nobody starves |
| PoolTimes.HighNeverOvertaken | libupnp/threadutil/src/ThreadPool.c:459-519 | over every run: while a job stays in the high queue, every job a worker takes from the queues was in front of it there from the start |
| PoolPriorities.JobAsAsked | libupnp/threadutil/src/ThreadPool.c:868-928 | over every run a job keeps the priority it was added with, its id, cell and time of request until it has been run |
| PoolPriorities.WhereJobsWait | libupnp/threadutil/src/ThreadPool.c:194-250 | in every state of every run a job of the low queue has low priority, one of the medium queue medium, or low after waiting the idle time, and one of the high queue high, or any after waiting the starvation time |
| PoolPriorities.HighInHigh | libupnp/threadutil/src/ThreadPool.c:896-905 | over every run a job of high priority waits in neither of the other queues |
| PoolPriorities.TakenByPriority | libupnp/threadutil/src/ThreadPool.c:486-519 | over every run a worker takes the first job of the highest queue that has one; a job of higher priority is passed over only for one that had waited the bound |
| PoolPriorities.AddStartsExactly | libupnp/threadutil/src/ThreadPool.c:589-652 | adding a job starts a worker exactly when there is no regular one or there are too many jobs for each, and the limit allows it |
| PoolPriorities.PersistentAnswers | libupnp/threadutil/src/ThreadPool.c:808-847 | a persistent job is refused exactly when no thread may be added and one regular thread is left; otherwise it is on offer at once, or when the worker started for it is there |
| PoolPriorities.LeavesExactly | libupnp/threadutil/src/ThreadPool.c:417-471 | a worker leaves exactly at shutdown, or when it has nothing to do and either waited in vain with more than the minimum or there are more than allowed |
| PoolPriorities.RemovesExactly | libupnp/threadutil/src/ThreadPool.c:946-1012 | removing by id takes out one waiting job with that id exactly when there is one, and leaves all others |
| PoolTimes.NoneBeginsAfterShutdown | libupnp/threadutil/src/ThreadPool.c:469-478 | once shutdown has begun no job begins to run, not even one added while shutdown waits |
| PoolJobs.StepKeeps | libupnp/threadutil/src/ThreadPool.c:387-538 | every step keeps the account of jobs and the separation of cells |
| PoolJobs.ExactlyOnePlace | libupnp/threadutil/src/ThreadPool.c:868-1012 | in every state of every run each accepted job is in exactly one of a queue, the slot, a worker's hands, finished, removed or discarded; it is run at most once; no job cell is shared or free while in use |
| PoolJobs.CellTaken | libupnp/threadutil/src/FreeList.c:80-99 | a recycled or new cell is one that is not in use |
| PoolWorkers.ThreadsCounted | libupnp/threadutil/src/ThreadPool.c:376-538 | totalThreads is the number of idle, working, persistent and between-jobs workers, persistentThreads that of persistent ones, in every state of every run |
| PoolWorkers.NeverTooMany | libupnp/threadutil/src/ThreadPool.c:589-620 | with at most one caller inside CreateWorker, counted and just started threads never exceed the limit |
| PoolLimits.LimitExceeded | libupnp/threadutil/src/ThreadPool.c:589-652 | for every sensible choice of attributes with a finite limit: runs with at most two callers inside CreateWorker can exceed the limit if and only if it is above zero, and without a shutdown if and only if it is above the minimum |
| PoolIds.IdsDistinctExactly | libupnp/threadutil/src/ThreadPool.c:895-928 | over every run the ids of the jobs accepted are pairwise distinct if and only if no job was accepted while a call that had brought one was still waiting to count its id |
| PoolClashes.ClashExactly | libupnp/threadutil/src/ThreadPool.c:780-928 | for every sensible choice of attributes some run accepts two jobs under one id; without a shutdown some run does if and only if minimum and limit are not both one |
| PoolIds.RunHave | libupnp/threadutil/src/ThreadPool.c:868-928 | in every state of every run each job queued, on offer or running has the id it was accepted with |
| PoolIds.IdNamesOneJob | libupnp/threadutil/src/ThreadPool.c:946-1012 | while no acceptances overlap, an id names at most one of the jobs that wait, so removing by id takes out the job meant |
| PoolWorkers.NeverTooFew | libupnp/threadutil/src/ThreadPool.c:426-446 | between a successful initialisation and shutdown there are never fewer than the minimum |
| ThreadPool.ThreadPool.BumpPriority | libupnp/threadutil/src/ThreadPool.c:194-250 | the loop moves up exactly the jobs the specification moves |
| ThreadPool.ThreadPool.TakeJob | libupnp/threadutil/src/ThreadPool.c:459-519 | a worker that no longer waits takes the persistent job, or the first of the highest queue, or leaves at shutdown, as the step of the state machine says |
| ThreadPool.ThreadPool.GiveBack | libupnp/threadutil/src/ThreadPool.c:387-417 | a worker back from a job gives back its cell and is no longer persistent |
| ThreadPool.ThreadPool.Enqueue | libupnp/threadutil/src/ThreadPool.c:896-909 | a new job goes to the end of the queue of its priority, and no other queue changes |
| ThreadPool.ThreadPool.Remove | libupnp/threadutil/src/ThreadPool.c:946-1012 | the first job with the id in the high, medium, low queue or the slot is taken out and its cell given back, as the step of the state machine says; otherwise nothing changes |
| ThreadPool.ThreadPool.DiscardAll | libupnp/threadutil/src/ThreadPool.c:1126-1186 | shutdown discards every waiting job, highest queue first, and gives back the cells in that order |
| ThreadPool.ThreadPool.FreeListFree | libupnp/threadutil/src/FreeList.c:117-142 | a cell is kept while one more stays below the bound, so never as many as the bound are kept |
| TimerThread.ExactlyOnePlace | libupnp/threadutil/src/TimerThread.c:341-451 | in every state of every run events wait in order of time and each scheduled one is in exactly one of queued, handed over, removed or discarded, so ids are distinct |
| TimerThread.HandedWhenDue | libupnp/threadutil/src/TimerThread.c:82-144 | an event is handed over only when it is due, no queued event is earlier and shutdown has not begun |
| TimerThread.EventKept | libupnp/threadutil/src/TimerThread.c:341-395 | over every run an event that is queued or handed over has exactly the time, duration and job it was scheduled with |
| TimerThread.NeverEarly | libupnp/threadutil/src/TimerThread.c:104-130 | over every run nothing is handed over before the time that was asked for when it was scheduled |
| TimerThread.TurnHandsOver | libupnp/threadutil/src/TimerThread.c:104-130 | the other half: when the time of some queued event has come, a turn before shutdown hands one over |
| TimerThread.HandedNewestFirst | libupnp/threadutil/src/TimerThread.c:362-374 | over every run events of the same time are handed over newest first: those still queued when one is handed over were scheduled before it |
| TimerThread.NoneAfterShutdown | libupnp/threadutil/src/TimerThread.c:466-519 | no event is handed over after shutdown has begun, not even one scheduled while shutdown waits |
| TimerThread.TimerThread.Work | libupnp/threadutil/src/TimerThread.c:90-144 | one turn of the timer thread's loop |
| TimerThread.TimerThread.ScheduleEvent | libupnp/threadutil/src/TimerThread.c:318-395 | a new event with the next id, the time, duration and job given, goes before the first that is not earlier |
| TimerThread.TimerThread.RemoveEvent | libupnp/threadutil/src/TimerThread.c:416-451 | the event with the id is taken out, or nothing changes |
| TimerThread.TimerThread.ShutDown | libupnp/threadutil/src/TimerThread.c:467-498 | shutdown is flagged and every queued event discarded |
| LinkedList.FreeList.Alloc | libupnp/threadutil/src/FreeList.c:80-99 | the element released last, or a new one |
| LinkedList.FreeList.Free | libupnp/threadutil/src/FreeList.c:117-142 | keeps the element while the bound allows |
| LinkedList.LinkedList.CreateListNode | libupnp/threadutil/src/LinkedList.c:57-72 | a node that is in neither the list nor the recycler, recycled if possible; the list is unchanged |
| LinkedList.LinkedList.AddAfter | libupnp/threadutil/src/LinkedList.c:189-212 | the item is inserted behind the given node; all links stay right |
| LinkedList.LinkedList.AddBefore | libupnp/threadutil/src/LinkedList.c:230-254 | the item is inserted in front of the given node |
| LinkedList.LinkedList.AddHead | libupnp/threadutil/src/LinkedList.c:136-145 | the item becomes the first |
| LinkedList.LinkedList.AddTail | libupnp/threadutil/src/LinkedList.c:162-171 | the item becomes the last |
| LinkedList.LinkedList.DelNode | libupnp/threadutil/src/LinkedList.c:272-301 | exactly the item of that node goes, and is returned |
| LinkedList.LinkedList.Head | libupnp/threadutil/src/LinkedList.c:354-365 | the first node, or none when the list is empty |
| LinkedList.LinkedList.Next | libupnp/threadutil/src/LinkedList.c:410-423 | the next node, or none at the end |
| LinkedList.LinkedList.Find | libupnp/threadutil/src/LinkedList.c:473-505 | the first node behind the start whose item matches, or none exactly when no item does |
| LinkedList.LinkedList.Destroy | libupnp/threadutil/src/LinkedList.c:319-337 | no items and no kept nodes are left |
| DomTree.TakenOutShows | libupnp/ixml/src/node.c:763-777 | unlinking a child leaves parent, first child and sibling pointers consistent for the tree without it |
| DomTree.PutInShows | libupnp/ixml/src/node.c:653-665 | linking a detached node at any place among the children does, for the tree with it |
| DomTree.InsertedTree | libupnp/ixml/src/node.c:618-672 | no cycle arises from putting a node below one that is not below it |
| DomTree.RootSearch | libupnp/ixml/src/node.c:491-513 | for a detached node the search decides proper ancestry exactly |
| DomTree.ChildSearch | libupnp/ixml/src/node.c:491-513 | for a node that is already a child the search, which also goes through its later siblings, finds nothing |
| Dom.Dom.IsAncestor | libupnp/ixml/src/node.c:491-513 | the search answers whether the parent of the node is at or below the first node or one of its later siblings |
| Dom.Dom.RemoveChild | libupnp/ixml/src/node.c:749-783 | the child becomes a root of its own and all else stays; errors change nothing |
| Dom.Dom.AppendChild | libupnp/ixml/src/node.c:802-849 | which error when, changing nothing; otherwise the new child, taken out first if it was one, is the last and belongs to the document of its parent; types and other documents stay, and a document has only elements, an element no attributes or documents, text nothing as children |
| Dom.Dom.InsertBefore | libupnp/ixml/src/node.c:618-672 | which error when, changing nothing; otherwise the new child stands right in front of the reference child, and types and documents stay |
| Dom.Dom.ReplaceChild | libupnp/ixml/src/node.c:694-733 | which error when, changing nothing; otherwise the new child stands where the old one stood and the old one is cut off; types and documents stay |
| Dom.ChildSequence | libupnp/ixml/src/node.c:618-849 | what the operations mean for the sequence of children, and that no other node's children and no other parent change |
| Dom.RemovedSequence | libupnp/ixml/src/node.c:749-783 | what removing means for the sequence of children, and that no other node's children and no other parent change |
| Dom.ReplacedSequence | libupnp/ixml/src/node.c:694-733 | what replacing means for the sequence of children, and that no other node's children and no other parent change |
| Dom.Dom.CreateNode | libupnp/ixml/src/document.c:150-193 | a new detached node of a document, or NULL without one; all other nodes stay |
| Dom.Dom.CreateDocument | libupnp/ixml/src/document.c:230-258 | a new document that is its own owner |

## Left out

XML

- CDATA sections and DOCTYPE: such input is rejected in the model.
- Namespaces: a name with `:` and an `xmlns` attribute are plain names, so no namespace error arises.
- Names.IsNameChar: the tables of name characters beyond ASCII are arbitrary constants, and nothing above the end of the last range is a name character, because the binary search there may look past the table.
- Parser.Parser.ReadDigits: sums without the width of a C int, so a reference that overflows is judged by its true value.
- Escape.GetChar: a numeric reference must end with `;` inside the buffer; at the end of the buffer the search for a digit also matches the terminator, and the code reads on.
- Parser.Parser.ParseDocument: error codes are one rejection; an end tag with an empty stack is a rejection; relaxed mode, reading files and allocation failure are not modelled.
- ComesBack.ComesBackExactly: for names with a prefix and `xmlns` attributes this is about plain names; its second clause and ReparseTree.PrintThenParse are about documents without them.

talloc

- Talloc.Talloc.Free: asks that every reference to a chunk at or below the freed one is owned by a chunk outside it and outside what is being freed, and that destructors below do not refuse; so neither the branch for a reference from below its own target nor the fallback to the parent or to NULL as new owner is modelled. A chunk found in a free under way has no references.
- Talloc.Talloc.Total: callable outside a free under way; the flag set by another traversal counts the chunk as nothing, as in the code.
- Talloc.Talloc.Realloc: handles are not reallocated, since their addresses are never handed out; `malloc` succeeds.
- User destructors return a fixed value and do not call talloc; names, reports, null tracking, block counts and the printf helpers are not modelled.

Hash table

- HashTable.HashTable.GetNext: asks for an entry that is in the table, as its comment does.
- HashTable.HashTable.Clear: hands the entries to the freer as a returned sequence; the freer does not touch the table.
- Allocation failure (also in the middle of a rehash), SIZE_MAX checks, float rounding, obstacks, hash_free, hash_do_for_each, statistics and hash_string.
- Hasher and comparator are fixed functions that satisfy `HashSpec.Compatible`; the abort for a hash outside the table is excluded by it.

Thread pool, timer, lists

- PoolMachine steps ask that the pool is shut down once, that no call begins once its mutex is destroyed, and that at most one persistent job is on offer at a time (there is one slot, libupnp/threadutil/src/ThreadPool.c:834).
- PoolWorkers.NeverTooMany: for attributes that do not change and a finite limit.
- Job functions, free functions, wait-time statistics, priorities and scheduling of threads, ThreadPoolSetAttr and whether a wait ends.
- ThreadPool.ThreadPool.TakeJob: the class has no threads; interleaving is in PoolMachine.
- TimerThread.TimerThread.Work: handing over is taken to succeed, as the code ignores its result; events are handed over one turn at a time. Shutdown is called once, and what becomes of the mutex after it is not modelled.
- LinkedList.LinkedList.AddAfter: asks for a node of the list that is not the tail sentinel, since the code follows its next pointer.
- LinkedList.FreeList.Free: allocating and the NULL element, which the code passes to free, are not modelled.

Document changes

- Dom.Dom.AppendChild: the new child is detached or already a child of the node, and is not the node itself; a child of another node would keep its old siblings' pointers.
- Dom.Dom.InsertBefore: the reference child is given and is not the new child; with NULL the code dereferences it.
- Cloning, attributes, names and values of nodes, and releasing nodes.
