# Verified model of V8's handle, tagged-value and fast-call API

The inline parts of V8's public headers do three hard things, and this project models each of them.

**Storage cells.** `Global` and `Persistent` handles own nodes of the global-handle table through raw
words. `PersistentValueMap` and `GlobalValueMap` leak a handle's node into a map of integers and rebuild
handles from it later. The collector resets phantom handles, and runs weak callbacks in one or two passes.
`Cells` holds a snapshot of all that memory (`World`) and the invariant `Inv`. `Handles`, `ValueMaps` and
`Collection` are the operations on it, and `Runs` is the state machine over all of them (`Paths` and
`Sequences` join its runs together). `Ownership`, `PlainHandles`, `CallbackData`, `PlainMaps`, `Frames`,
`ClearSteps`, `Accounts` and `ClearedData` hold the theorems. `Engine`, `Collector`, `Callbacks`, `Reading` and
`Clearing` are the code, statement by statement, on mutable memory. A ghost `World` mirrors that memory
(`Memory`, `Sweep`). `Driver` shows that every modelled call, collection and second pass is a run of the state
machine.
`Traced`, `TracedNodes` and `TracedEngine` do the same for `TracedReference`, with incremental marking.

**Tagged values.** `Words`, `Smi`, `Bytes`, `TaggedHeap`, `PointerTags`, `NodeBytes`, `IsolateLayout` and
`ReturnValues` cover small integers in both widths, compressed pointers, external pointer tags, node flag
bytes, the raw isolate layout and callback results. Pointer size, tagged size and Smi width are parameters
(`Words.Config`). Memory is little-endian.

**Fast-call descriptors.** `FastApi` covers type identifiers, overload resolution and the builder.

The model is of the configuration with indirect locals, without static roots, map packing or the sandbox.
Functions that the headers only declare are modelled after their implementation under `v8/src/handles`.

Two points where a reader may expect something else:

- A handle that is its own source (`Reset(isolate, other)` and `Copy`) ends up empty, not unchanged. The
  code resets first and looks at the source afterwards. `Ownership.CopyKeepsReferent` states exactly when the
  referent is kept. Copy assignment of a `TracedReference` onto itself does nothing.
- One collection does not always reclaim the node of a traced reference that was reset during marking
  (`Traced.OrphanMayStay`). It does if and only if the node was not marked yet (`Traced.FreedByThisOne`).
  The second collection always does (`Traced.OrphanIsFreed`).

## Model

| member | source | states |
|---|---|---|
| Runs.InvStep | v8/include/v8-util.h:304-334 | Every handle operation, map operation, collection and second-pass callback keeps the invariant: nodes and non-null words in bijection, node kinds fit their owner, callback data placed and conserved, objects live |
| Runs.RunKeepsInv | v8/include/v8-persistent-handle.h:441-569 | The invariant holds after any sequence of operations, in any order, on any number of handles and maps |
| Runs.ReachableInv | v8/include/v8-persistent-handle.h:441-569 | The invariant holds in every state reachable from an empty isolate |
| Ownership.OneOwner | v8/include/v8-util.h:304-334 | Each live cell is owned by exactly one non-empty handle or map entry, and no word dangles |
| Ownership.CellCount | v8/include/v8-persistent-handle.h:465-470 | There are exactly as many live cells as non-empty handles and entries: nothing leaks |
| Ownership.MoveChain | v8/include/v8-persistent-handle.h:548-569 | After any chain of moves, self-moves included, the last handle owns the same cell with the same object, a phantom cell points back to it, the other handles are empty, nothing else changed |
| Ownership.MoveConstructChained | v8/include/v8-persistent-handle.h:548-554 | The move constructor gives the source's cell, re-pointed, to the new handle, leaves the source empty and changes nothing else |
| Ownership.MoveChainFromNew | v8/include/v8-persistent-handle.h:548-569 | The law of move chains also when the first move is a construction |
| Ownership.SetWeakExact | v8/include/v8-persistent-handle.h:516-519 | SetWeak makes the node weak with a back-pointer to this handle, keeps cell and object, and changes no other cell |
| Ownership.ClearWeakExact | v8/include/v8-persistent-handle.h:521-525 | ClearWeak makes the node strong, so that every collection keeps the handle and its cell |
| PlainHandles.HandlesRefine | v8/include/v8-persistent-handle.h:441-569 | Every operation, map operations and collections included, changes exactly the handles it names as a table of handles would: an assignment or copy is strong, a move hands over object and weakness and empties the source, SetWeak and ClearWeak set the weakness, a handle out of a map is strong, a collection empties exactly the weak handles of dead objects |
| Ownership.PhantomReset | v8/src/handles/global-handles.cc:559-565 | A collection empties a phantom handle exactly if its object is dead, through the back-pointer to its current owner, and touches no strong handle |
| Ownership.CopyDistinct | v8/include/v8-persistent-handle.h:448-456 | Copying from another handle frees exactly the old cell, takes a new one for the same object, leaves the source alone |
| Ownership.CopySelf | v8/include/v8-persistent-handle.h:489-497 | A handle that is its own source ends up empty with its cell freed, never dangling |
| Ownership.CopyKeepsReferent | v8/include/v8-persistent-handle.h:489-497 | The destination refers to what the source referred to if and only if the handles are distinct or the source was empty |
| Ownership.EqualHandlesIsIdentity | v8/include/v8-handle-base.h:83-87 | Comparing addresses says whether both are empty or both refer to the same object |
| Frames.AgreeStep | v8/include/v8-util.h:392-408 | An operation changes only the words it names; every other word keeps its cell and node |
| Handles.KeptStep | v8/include/v8-persistent-handle.h:465-497 | No handle operation changes a map, callback data or an object |
| Collection.InvCollect | v8/src/handles/global-handles.cc:691-716 | A collection of any set of dead objects, with any relocation of the others, keeps the invariant |
| Collection.InvDrained | v8/src/handles/global-handles.cc:744-773 | Running all queued second-pass callbacks keeps the invariant |
| CallbackData.WeakCellUnderItsKey | v8/include/v8-util.h:392-408 | In every state: a weak cell is the cell stored under the key in its callback data, in the map the data names, or, while that map is being cleared, in the local backing map its entries were swapped into; so a callback that removes by key removes its own cell |
| CallbackData.StageStep | v8/include/v8-util.h:319-327 | For every operation: callback data is created once by the Set that installs it, disposed by Release if the caller removes, replaces or clears the entry, otherwise disposed or queued by the collection, and disposed stays disposed |
| CallbackData.DisposedForGood | v8/include/v8-util.h:421-431 | Over any run, disposed callback data keeps its stage |
| CallbackData.DisposedOnce | v8/include/v8-util.h:497-511 | After any run, callback data has been disposed exactly once if it was created and is not live, never otherwise |
| CallbackData.TwoPass | v8/include/v8-weak-callback-info.h:39-45 | When the second pass starts, no dead cell is in any map or handle, all are freed, survivors keep their cells, and exactly the dead entries of GlobalValueMaps are queued once each |
| CallbackData.SecondPassOnce | v8/include/v8-util.h:508-511 | The second pass disposes exactly the queued callback data, each once |
| CallbackData.DrainedIsRun | v8/src/handles/global-handles.cc:744-773 | The second pass is a run of single callbacks in whatever order they were queued |
| PlainMaps.MapRefines | v8/include/v8-util.h:173-230 | Each map is a plain map from keys to objects: every operation on any map or handle, and every moving collection, changes its contents exactly as the plain-map operation does |
| PlainMaps.WeakMapLosesDead | v8/include/v8-util.h:392-408 | A collection takes from a weak map exactly the entries of dead objects, and nothing from any other map |
| PlainMaps.MadeWeak | v8/include/v8-util.h:359-365 | That is decided by how the map was made, after any run since |
| PlainMaps.ObjectsSet | v8/include/v8-util.h:392-408 | SetUnique puts the handle's object under the key and returns a handle to the old object; all other places keep theirs |
| PlainMaps.ObjectsGc | v8/src/handles/global-handles.cc:691-708 | Moving objects changes no place's object; only dead weak places become empty |
| PlainMaps.ReferenceRun | v8/include/v8-util.h:236-287 | A PersistentValueReference still reads the map's object after any run that does not invalidate it in the documented ways |
| Engine.Engine.GlobalizeReference | v8/src/handles/global-handles.cc:623-634 | Returns a fresh strong node for the object |
| Engine.Engine.CopyGlobalReference | v8/src/handles/global-handles.cc:636-646 | Returns a fresh strong node for the same object |
| Engine.Engine.DisposeGlobal | v8/src/handles/global-handles.cc:660-664 | Frees exactly the given live node |
| Engine.Engine.MoveGlobalReference | v8/src/handles/global-handles.cc:649-658 | Re-points a phantom node to the new handle, changes nothing else |
| Engine.Engine.Reset | v8/include/v8-persistent-handle.h:465-470 | The memory afterwards is the world after Reset: cell freed, handle empty |
| Engine.Engine.ResetTo | v8/include/v8-persistent-handle.h:476-483 | Old cell freed first, then a fresh cell for a non-empty Local |
| Engine.Engine.ResetFrom | v8/include/v8-persistent-handle.h:489-497 | Resets first, then takes a fresh cell if the source is still non-empty |
| Engine.Engine.Copy | v8/include/v8-persistent-handle.h:448-456 | The same for Persistent copies |
| Engine.Engine.MoveAssign | v8/include/v8-persistent-handle.h:556-569 | Frees the old cell, hands the cell over with its back-pointer, empties the source; nothing on self-move |
| Engine.Engine.MoveConstruct | v8/include/v8-persistent-handle.h:548-554 | A new handle takes the cell over and the source is empty |
| Engine.Engine.Destroy | v8/include/v8-persistent-handle.h:400-400 | The destructor frees the cell and the handle is gone |
| Engine.Engine.SetPhantom | v8/include/v8-persistent-handle.h:516-519 | The node becomes weak with a back-pointer to this handle |
| Engine.Engine.ClearWeak | v8/include/v8-persistent-handle.h:521-525 | The node is strong again |
| Engine.Engine.IsWeak | v8/include/v8-persistent-handle.h:458-463 | True exactly for a non-empty handle whose node is in the weak state |
| Engine.Engine.Release | v8/include/v8-util.h:319-327 | Rebuilds a handle on the raw cell; a weak node is made strong and its callback data disposed, a node near death is left as it is |
| Engine.Engine.ClearAndLeak | v8/include/v8-util.h:304-308 | Returns the raw cell and empties the handle without freeing |
| Engine.Engine.TraitsSet | v8/include/v8-util.h:57-66 | Stores the raw value and returns the old one or null |
| Engine.Engine.TraitsRemove | v8/include/v8-util.h:72-79 | Erases the entry and returns its raw value, or null |
| Engine.Engine.Remove | v8/include/v8-util.h:210-212 | The entry's cell goes to the returned handle, strong, with its callback data disposed; an absent key gives an empty handle |
| Engine.Engine.SetUnique | v8/include/v8-util.h:392-408 | Installing first and releasing the old value afterwards has the effect of removing the old entry and inserting the new one, with callback data naming map and key |
| Engine.Engine.SetWithReference | v8/include/v8-util.h:414-418 | The reference taken before the handle is emptied is the cell the map holds under the key afterwards |
| Engine.Engine.NewMap | v8/include/v8-util.h:359-365 | A new map is empty and disturbs nothing |
| Memory.SetCommutes | v8/include/v8-util.h:405-407 | The order of installing the new entry and releasing the old one does not matter |
| Collector.ResetWeakNodeIfDead | v8/src/handles/global-handles.cc:691-708 | A dead phantom node is freed and its handle nulled; a dead node with a callback becomes near-death and is queued |
| Collector.IterateWeakRootsForPhantomHandles | v8/src/handles/global-handles.cc:710-716 | All dead weak nodes are handled, those with callbacks listed once each with their data |
| Collector.WeakCallback | v8/include/v8-util.h:421-431 | Removes exactly the dead entry, frees its node, disposes its data once |
| Collector.RemoveWeak | v8/include/v8-util.h:329-334 | Erases the entry and frees its node, leaves no handle behind |
| Collector.OnWeakCallback | v8/include/v8-util.h:497-506 | Removes exactly the dead entry, frees its node, asks for a second pass, keeps the data |
| Collector.InvokeFirst | v8/src/handles/global-handles.cc:855-866 | Runs the callback the map class installed; the node is free afterwards |
| Collector.InvokeFirstPassWeakCallbacks | v8/src/handles/global-handles.cc:824-853 | Each callback finds its own node under its own key whatever ran before it, the check that the node was reset never fails, and data is disposed or queued exactly once |
| Collector.CollectGarbage | v8/src/handles/global-handles.cc:691-716 | The loops over nodes and callbacks together have exactly the closed-form effect Collection.Collect |
| Callbacks.InvokeSecondPassPhantomCallbacks | v8/src/handles/global-handles.cc:744-773 | With callbacks that run any finite number of further collections, which queue more callbacks: the loop ends with an empty queue, each invocation runs one callback to its return (or finds the script at its end), and the outcome is exactly that of those collections followed by each queued callback once; it is a run of the state machine |
| Callbacks.DrainedFirst | v8/src/handles/global-handles.cc:750-753 | A collection between second-pass callbacks has the effect it would have before or after all of them |
| Runs.ViaIsRun | v8/include/v8-persistent-handle.h:441-569 | Joined steps from one state to another are an enabled run of the state machine between them |
| Driver.Execute | v8/include/v8-persistent-handle.h:441-569 | Every modelled call on handles and maps, allocation, collection and second pass, executed by the code, is an enabled run of the state machine and keeps the invariant; it is the one operation asked for, or, for Clear and map destruction, handle and map operations among which the calls on the map are exactly those that Dispose asked for, in order |
| Clearing.Clear | v8/include/v8-util.h:218-230 | With a Dispose that sets, removes or clears re-entrantly any finite number of times, Clear terminates with an empty map; every pair of key and object that was in it or put into it is disposed of or handed back, counted exactly; one call of Dispose is consumed for each disposed pair while the script lasts; the calls on the map are exactly those Dispose asked for, in order; every other handle and map keeps its cells; it is a run of handle and map operations; callback data of the map's entries ends disposed by Release, data created meanwhile too, and all other data keeps its stage, queued data included |
| Clearing.DestroyMap | v8/include/v8-util.h:295-295 | The destructor disposes of everything as Clear does, with as many calls of Dispose, callback data included, and the map is gone; it is a run of handle and map operations |
| Clearing.DisposeEach | v8/include/v8-util.h:225-228 | The inner loop releases and disposes every entry of the swapped-out map, counted exactly, with one call of Dispose each while the script lasts, as a run of handle and map operations |
| ClearedData.ClearDisposes | v8/include/v8-util.h:218-230 | Any run of handle and map operations that empties a map and leaves other places alone has disposed the callback data of the map's entries by Release, and has neither disposed nor queued any other data that existed |
| Accounts.DisposedExactlyOnce | v8/include/v8-util.h:218-230 | An entry under a key that Dispose does not touch is disposed of exactly once, with its own key and object |
| Accounts.OneCallEach | v8/include/v8-util.h:225-228 | While the script lasts, Dispose is called once for each entry that was in the map or was put into it, less those handed back |
| Accounts.AllDisposed | v8/include/v8-util.h:214-230 | If nothing was handed back, exactly the entries present at the start and those put in meanwhile are disposed of, each once |
| Reading.Get | v8/include/v8-util.h:183-189 | A Local for the object under the key, empty exactly if the key is absent |
| Reading.Contains | v8/include/v8-util.h:194-196 | True exactly if the plain map has the key |
| Reading.Size | v8/include/v8-util.h:173-173 | The number of keys of the plain map |
| Reading.GetReference | v8/include/v8-util.h:285-287 | The reference reads the object under the key, or nothing if absent |
| Traced.InvStep | v8/src/handles/traced-handles.cc:679-767 | Construction, reset, copy, move, class ids, hosts going away, marking steps, the atomic pause and sweeping all keep: references in live hosts are empty or own an in-use node with an object, no two share one; during marking, the node of every reference the tracer has visited is marked, whatever was stored into it since |
| Traced.LiveAreMarked | v8/src/handles/traced-handles.cc:659-677 | When the tracer has visited every reference of the surviving hosts at some time during marking, all their nodes are marked: the write barriers of stores and moves are enough |
| Traced.RunKeepsInv | v8/include/v8-traced-handle.h:279-377 | That holds after any run |
| Traced.Refines | v8/include/v8-traced-handle.h:290-377 | Each operation changes exactly the references it names, as a plain map to objects and class ids would: self-copy changes nothing, moves keep the class id, copies do not, a collection takes nothing from a live host, references follow moved objects |
| Traced.NoFreeWhileMarking | v8/src/handles/traced-handles.cc:693-704 | While marking runs no node is freed and no mark is lost |
| Traced.DoomedIsFreed | v8/src/handles/traced-handles.cc:842-861 | A node left behind and not marked is freed by the next collection to finish, whatever happens before |
| Traced.OrphanIsFreed | v8/src/handles/traced-handles.cc:679-710 | Any node left behind is freed by the second collection to finish |
| Traced.FreedByThisOne | v8/src/handles/traced-handles.cc:693-704 | A node left behind during marking is freed by the collection under way if and only if it is not marked, whatever happens until that collection finishes |
| Traced.OrphanMayStay | v8/src/handles/traced-handles.cc:693-704 | A run in which a node visited and then reset outlives the collection under way |
| TracedNodes.ResetExact | v8/src/handles/traced-handles.cc:679-710 | A reset frees exactly its node when neither marking nor sweeping runs, only clears the node's object during marking, and leaves all nodes alone during sweeping |
| TracedNodes.NodeFate | v8/src/handles/traced-handles.cc:679-767 | In every operation, every node keeps its contents and owner unless the operation names the owner; then it is freed, cleared, handed over, marked or orphaned exactly as the mode demands |
| TracedNodes.NodeBorn | v8/src/handles/traced-handles.cc:659-677 | An operation creates exactly the node it is to create, for the reference it names, marked exactly for a store into an existing reference during marking |
| TracedNodes.NothingLeaks | v8/src/handles/traced-handles.cc:706-709 | While no collection runs and hosts live, every node in use is held by a reference, after any operations |
| TracedEngine.TracedHandles.Destroy | v8/src/handles/traced-handles.cc:679-710 | Ignored while destructors run, clears only the object while marking, frees otherwise |
| TracedEngine.TracedHandles.Create | v8/src/handles/traced-handles.cc:659-677 | A fresh node with class id 0, marked exactly for an assigning store during marking |
| TracedEngine.TracedHandles.Reset | v8/include/v8-traced-handle.h:290-294 | Disposes the node as the mode demands and empties the reference |
| TracedEngine.TracedHandles.New | v8/include/v8-traced-handle.h:195-201 | An initializing store into a new reference |
| TracedEngine.TracedHandles.ResetTo | v8/include/v8-traced-handle.h:330-339 | Resets, then an assigning store of a non-empty Local |
| TracedEngine.TracedHandles.CopyAssign | v8/include/v8-traced-handle.h:368-377 | Nothing on self-copy, otherwise a fresh node for the same object |
| TracedEngine.TracedHandles.MoveTracedReference | v8/src/handles/traced-handles.cc:1112-1124 | Disposes the old target, hands the node over, marks it during marking, empties the source |
| TracedEngine.TracedHandles.MoveAssign | v8/include/v8-traced-handle.h:359-366 | Nothing on self-move, otherwise the move |
| TracedEngine.TracedHandles.SetWrapperClassId | v8/include/v8-traced-handle.h:379-385 | Sets the id of a non-empty reference, ignored on an empty one |
| TracedEngine.TracedHandles.WrapperClassId | v8/include/v8-traced-handle.h:387-393 | The id last given to the node, 0 for an empty reference |
| TracedEngine.TracedHandles.StartMarking | v8/src/handles/traced-handles.cc:763-766 | Marking begins with no reference visited |
| TracedEngine.TracedHandles.Mark | v8/src/handles/traced-handles.cc:1143-1152 | Marks the node of the visited reference and changes nothing else |
| TracedEngine.TracedHandles.ResetDeadNodes | v8/src/handles/traced-handles.cc:842-861 | The loop frees exactly the nodes not marked and clears all marks |
| TracedEngine.TracedHandles.UpdateNodes | v8/src/handles/traced-handles.cc:950-959 | The visit of all nodes in use moves every object address and changes nothing else |
| Words.UnsignedRangeTrick | v8/include/v8-internal.h:87-95 | The unsigned comparison is the signed range check, for all values one signed word can hold |
| Smi.ValidIsRange | v8/include/v8-internal.h:87-115 | IsValidSmi is the range check for every machine word, in both widths |
| Smi.Limits | v8/include/v8-internal.h:75-104 | The shifted constants are the 31-bit or 32-bit limits |
| Smi.RoundTrip | v8/include/v8-internal.h:80-155 | For every 32-bit integer, decoding its encoding gives it back if and only if it is a valid Smi |
| Smi.ShiftedValue | v8/include/v8-internal.h:152-155 | As a signed word, the encoding of a valid Smi is the value shifted left by one bit, or by 32 bits |
| Smi.NeverHeapObject | v8/include/v8-internal.h:690-704 | No encoded integer carries the heap-object tag |
| Smi.SurvivesCompression | v8/include/v8-internal.h:861-869 | The encoding survives a 32-bit field and decompression against any cage base |
| Smi.Injective | v8/include/v8-internal.h:152-155 | Different valid Smis have different encodings |
| Bytes.LoadStored | v8/include/v8-internal.h:834-849 | A word stored byte by byte is read back |
| Bytes.ByteOfWord | v8/include/v8-internal.h:834-849 | The bytes of a word are at ascending addresses from the lowest one |
| TaggedHeap.Decompress | v8/include/v8-internal.h:905-913 | Decompression inverts truncation for every in-cage address, from any object of the cage |
| TaggedHeap.InstanceTypeRead | v8/include/v8-internal.h:721-727 | GetInstanceType reads the instance type of the object's map in every configuration |
| TaggedHeap.OddballKindRead | v8/include/v8-internal.h:729-731 | GetOddballKind reads the oddball's kind in every configuration |
| TaggedHeap.QuickChecks | v8/include/v8-value.h:474-549 | On any word that stands for a value, the four quick checks say what the value is |
| TaggedHeap.InternalFieldTypes | v8/include/v8-internal.h:738-748 | CanHaveInternalField selects exactly the special API objects and the types from JSObject to the last API object |
| TaggedHeap.InternalFieldRead | v8/include/v8-object.h:735-757 | On any object, the fast path is taken if and only if its type can have internal fields, and then returns the field's value, object or integer |
| TaggedHeap.EmbedderDataRead | v8/include/v8-context.h:394-416 | The fast path returns the value in the context's data array |
| TaggedHeap.ConfigurationsAgree | v8/include/v8-value.h:474-549 | A heap and its compressed image take the fast path for the same objects, and answer every check alike on any field it reads |
| TaggedHeap.ConfigurationsAgreeOnData | v8/include/v8-context.h:394-416 | The same for embedder data |
| PointerTags.EqualCounts | v8/include/v8-internal.h:364-388 | Of two different bit strings of any width with equally many ones, each has a one where the other has none |
| PointerTags.EqualPopcount | v8/include/v8-internal.h:364-388 | The same for eight-bit tags |
| PointerTags.InTable | v8/include/v8-internal.h:372-388 | The table lists exactly the type tags with four bits set |
| PointerTags.UntagStored | v8/include/v8-internal.h:881-902 | Untagging with the stored tag returns the pointer whether or not the mark bit is set |
| PointerTags.UntagOther | v8/include/v8-internal.h:881-902 | Untagging with any other tag of the table leaves a type bit set |
| PointerTags.UntagSpecial | v8/include/v8-internal.h:435-448 | Untagging a free or evacuation entry with any tag of the table leaves a type bit set |
| PointerTags.SharedTags | v8/include/v8-internal.h:456-461 | The range check picks out exactly the shared tags |
| NodeBytes.StateExact | v8/include/v8-internal.h:766-769 | UpdateNodeState stores the state and disturbs no flag if and only if the value is at most 3 |
| NodeBytes.UpdatesRefine | v8/include/v8-internal.h:750-769 | Any sequence of flag, state and class-id updates on the bytes of any nodes refines updates of separate record fields, for any pointer size |
| NodeBytes.Nodes.UpdateNodeFlag | v8/include/v8-internal.h:755-759 | Sets the flag in the node's record and changes no other field; the bytes of other nodes are kept |
| NodeBytes.Nodes.GetNodeFlag | v8/include/v8-internal.h:750-753 | Non-zero exactly if the record's flag is set |
| NodeBytes.Nodes.UpdateNodeState | v8/include/v8-internal.h:766-769 | Sets the state in the node's record and changes no other field; the bytes of other nodes are kept |
| NodeBytes.Nodes.GetNodeState | v8/include/v8-internal.h:761-764 | The record's state |
| NodeBytes.Nodes.SetWrapperClassId | v8/include/v8-persistent-handle.h:532-538 | Sets the class id in the node's record and changes no other field; the bytes of other nodes are kept |
| NodeBytes.Nodes.WrapperClassId | v8/include/v8-persistent-handle.h:540-546 | The record's class id |
| IsolateLayout.LayoutRefines | v8/include/v8-internal.h:559-612 | Any sequence of slot writes and counter increments on raw isolate memory behaves as on a record of slots, counter and roots, in every configuration |
| IsolateLayout.CounterCounts | v8/include/v8-internal.h:785-789 | After any sequence of operations the counter has gone up by the number of increments, modulo the word |
| IsolateLayout.OffsetsMatch | v8/src/execution/isolate-data.h:26-77 | The offsets the API uses are where the isolate's own list of fields puts them, in every configuration |
| IsolateLayout.OtherFieldsKept | v8/src/execution/isolate-data.h:26-77 | A slot write or increment changes no byte of any other field of the isolate, handle-scope data included, and no root |
| IsolateLayout.WordByWord | v8/include/v8-internal.h:771-814 | Slots and roots follow one another word by word from the start of their fields |
| IsolateLayout.IsolateMemory.SetData | v8/include/v8-internal.h:771-776 | Sets one slot; the other slots, the counter and the roots keep their values |
| IsolateLayout.IsolateMemory.GetData | v8/include/v8-internal.h:778-783 | The slot's value |
| IsolateLayout.IsolateMemory.IncrementLongTasksStatsCounter | v8/include/v8-internal.h:785-789 | Counts up with wrap-around; slots and roots keep their values |
| IsolateLayout.IsolateMemory.GetRoot | v8/include/v8-internal.h:791-814 | The root's value |
| ReturnValues.SmiMeaning | v8/include/v8-function-callback.h:320-329 | An encoded integer is never the hole and means itself |
| ReturnValues.GetAfterSet | v8/include/v8-function-callback.h:277-405 | Whatever was set before, Get returns what the last setter was given: numbers exactly, an empty handle as undefined |
| ReturnValues.LastSetWins | v8/include/v8-function-callback.h:277-405 | The same after any sequence of setters |
| ReturnValues.SmiWhenSmall | v8/include/v8-function-callback.h:314-341 | A number is stored without allocation if and only if it is a small integer, otherwise as a heap number with that value |
| ReturnValues.ThrowMode | v8/include/v8-function-callback.h:486-495 | Comparing encoded modes decides as comparing the modes would |
| ReturnValues.ReturnValue.SetInt32 | v8/include/v8-function-callback.h:320-329 | A Smi if valid, else a heap number; either way the value set |
| ReturnValues.ReturnValue.SetUint32 | v8/include/v8-function-callback.h:331-341 | Every uint32 is represented exactly |
| ReturnValues.ReturnValue.SetNumber | v8/include/v8-function-callback.h:314-318 | The double reads back as given, NaN, infinities and minus zero included; a Smi exactly for integers in range other than minus zero |
| ReturnValues.ReturnValue.SetHandle | v8/include/v8-function-callback.h:302-312 | Get then returns what the handle stands for, or undefined if it is empty |
| ReturnValues.ReturnValue.Get | v8/include/v8-function-callback.h:382-393 | The word, with the hole read as undefined; never the hole |
| FastApi.IdRoundTrip | v8/include/v8-fast-api-calls.h:292-301 | Every CTypeInfo survives the identifier round trip |
| FastApi.InfoRoundTrip | v8/include/v8-fast-api-calls.h:292-301 | An identifier survives if and only if it uses only its low 24 bits |
| FastApi.IdBytes | v8/include/v8-fast-api-calls.h:292-301 | The identifier has the flags in its lowest byte, then the sequence type, then the type, and nothing above |
| FastApi.CountAppended | v8/include/v8-fast-api-calls.h:409-425 | All arguments are counted except an options argument in the last position |
| FastApi.GetOverloadResolution | v8/include/v8-fast-api-calls.h:491-520 | Compile time iff the counts differ; run time iff they match, at most one position differs in sequence type and neither side is scalar there; impossible otherwise |
| FastApi.ResolutionSymmetric | v8/include/v8-fast-api-calls.h:488-520 | Swapping the functions does not change the answer |
| FastApi.OptionsIgnored | v8/include/v8-fast-api-calls.h:421-520 | Appending an options argument to either function or to both does not change the answer |
| FastApi.BuilderExact | v8/include/v8-fast-api-calls.h:838-902 | After any sequence of builder calls, bit by bit: argument i has its own type and exactly the flags it started with and those passed for it, the result has its own type and exactly the flags of the last Ret, the arity is unchanged |
| FastApi.CallsCommute | v8/include/v8-fast-api-calls.h:845-902 | Calls for different things commute, and so do two calls for the same argument |

## Left out

- The node allocators (free lists and blocks): a fresh address is taken as given by contract.
- Collections in the middle of a map operation or of `Clear`: a collection needs all maps at rest.
- Collector.WeakCallback: the embedder's `Dispose` only lets the value go here, since no other API call is allowed in a first callback; re-entrant `Dispose` is modelled for `Clear` only.
- Callbacks.InvokeSecondPassPhantomCallbacks: besides disposing their data, second-pass callbacks run collections here, but make no other calls.
- Engine.Engine.SetUnique: a phantom handle put into a map without weak callbacks is excluded, as a debug check of the label annotation does (`v8/src/handles/global-handles.cc:529-532`). Release builds do not check, and the label then overwrites the back-pointer of the phantom node.
- Engine.Engine.SetWithReference: the same exclusion.
- PlainMaps.ObjectsSet: the same exclusion.
- Clearing.DisposeEach: entries leave the swapped-out map as the iterator passes them; the order of keys is arbitrary rather than sorted.
- Embedder fields copied into `WeakCallbackInfo`, and the `kWeakWithInternalFields` type: they would only add a copy of two words.
- `PersistentValueVector`: deprecated, and its `Clear` does not type-check when instantiated.
- Relaxed-memory atomics of traced slots, young-generation lists, and conservative marking of traced nodes.
- The slow paths `SlowGetInternalField` and `SlowGetEmbedderData`, whose bodies are outside the headers.
- Big-endian memory, direct locals, static roots, map packing and the sandboxed external pointer table itself.
- Static assertions on template arguments of the fast-call builder: they are compile-time checks.
- Interfaces whose bodies are not in the headers (`Locker`, `HandleScope`, `MicrotaskQueue`, `ValueSerializer` and similar).
