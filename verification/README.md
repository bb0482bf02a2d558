# Verified models of the OpenSIPS core

This project models self-contained algorithms of the OpenSIPS C core in Dafny and
proves what they promise, on all inputs, all edit lists, all trees, all scripts or
all interleavings. `dafny verify dfyconfig.toml` checks everything; no proof rests
on an assumption.

**Message rewriting.** A received SIP message is edited through a sorted list of
"lumps" and sent as a new buffer. One pass predicts the size, a second writes the
bytes, and the server aborts if they disagree. `Lumps.Render` says what an edit list
means, position by position and without the passes' cursors. Both passes are proved
against it, for conditional, skip and substitution chains and any overlap of
deletions. The same is done for multipart bodies (`BodyParts.BodyText`) and for the
whole message with its Content-Length (`MessageBuild`). What these meanings amount to
is proved apart from them: conditional texts appear exactly if the realms differ, so
that double Record-Route gives one header or two (`ChainLaws.DoubleRoute`); what is
left alone is sent as received (`BodyLaws.ReframedIdentity`, `MessageBuild.Untouched`);
new multipart framing reads back as its parts exactly if none contains the delimiter
(`BodyLaws.FramedReads`). What turned out:

- the passes disagree exactly if the advertised address or port of the message is
  set but empty while the socket advertises none of its own and the string used
  instead is not empty (`SubstContext.SubstPassesAgree`, `MessageBuild.PassesAgree`);
- otherwise the server aborts exactly in two cases: a parsed body does not end where
  the useful part of the message ends, or the body was not parsed and the live edits
  at or past that end change the length (`MessageBuild.SizesAgree`). Both happen: a
  text anchored at the very end of a message (`MessageBuild.AnchorAtEnd`,
  `MessageBuild.AbortAtEnd`), and a part added to a body without a Content-Type
  that is shorter than its datagram (`MessageBuild.AbortNullBody`);
- a Content-Length that is written counts the bytes sent after the blank line exactly
  if the message was seen to have a body or nothing follows the blank line
  (`MessageBuild.ClenRight`, `MessageBuild.WrongClen`); it may even be printed from
  a negative number (`MessageBuild.NegativeClen`);
- of two partly overlapping deletions the later one is ignored as a whole
  (`DataLump.OverlapIgnored`).

**AVL map.** Nodes on the heap with parent links and balance factors, changed in
place. A ghost tree and a zipper ("context") give the shape; every operation is
proved against the mathematical map from key classes to values. Keys are compared
up to their first NUL and by length (`StrKey.CmpZero`), so two keys that differ
only after a NUL are one key (`StrKey.NulCollision`); keys without a NUL are in
dictionary order (`StrKey.DictionaryOrder`), and iteration and teardown follow it.

**Futex lock** and **script reload** are step systems over any number of processes;
their theorems are invariants over all runs. The comment that the lock word 1 means
no sleepers does not hold at every point (`FutexLock.OneWithSleeper`). At every
point of every run, each approved reload is at each process either in use, or its
switch is still under way, or the switch has been lost, and only one of these
(`ScriptOutcome.AlwaysAccounted`). A switch is lost in two ways
(`ScriptOutcome.DropReason`): its command could not be sent, or the process saw a
sequence number and, reading it again, did not find its own, because the trigger
had released it in between (`ScriptReload.SwitchLost`) or a newer reload had begun.

**I/O reactor.** The descriptor map, the priority-ordered array and the priority
index stay consistent through additions, removals and refused kernel calls, except
for descriptor 0 and for removing more flags than are watched
(`Reactor.IoWait.Add`, `Reactor.IoWait.Del` state both as equivalences). One
dispatch pass answers every event exactly once although handlers, which may decide
by the table they find, shift the array under the scan (`ReactorLoop.Pass`).

**Script interpreter.** `ScriptModel` gives scripts a meaning with the running
routes passed down as a value; `Interpreter.Process` is the code with its two fixed
arrays and global flags and computes exactly that meaning. Termination needs no
bound of ours: it follows from the route limit, the syntax and the loop limit.
`ScriptLaws` says which statements run, in which order and how often.

**Codecs and digests.** Streaming MD5, table-driven CRC-32 and CCITT against the
shift register, binary packets, and IP address text. Any single changed byte changes
a checksum (`CrcLaws.ByteChange`); which texts are read as an address is stated
exactly (`IpText.Parse4Exact`, `Ip6Text.Accepted6`).

## Model

| member | source | states |
|---|---|---|
| SubstContext.SubstPassesAgree | msg_translator.c:459-638 | the size counted for every substitution equals the length written, for all kinds, if and only if for address and for port: no sending socket, or the socket advertises one, or the message does not set an empty one, or the string used instead adds nothing either |
| SubstContext.InconsistentWitness | msg_translator.c:605-638 | otherwise a substitution exists whose two lengths differ |
| SubstContext.TransportLenMatches | msg_translator.c:459-597 | the transport parameter is as long as the length pass says, for every protocol |
| SubstContext.SameRealm | msg_translator.c:357-441 | for a message that leaves the way it came exactly the always-true and the same-realm condition hold |
| SubstContext.OneChange | msg_translator.c:357-441 | if only the address, the family, the port or the protocol changes, exactly the conditions about that part and about the realm hold |
| SubstContext.RealmsDiffer | msg_translator.c:387-406 | the realms differ if and only if address, port or protocol does, and same is the opposite of different |
| SubstContext.SentRealm | msg_translator.c:853-1012 | the sending realm is its address, its port unless own and default, and its transport unless UDP, each as substituted on its own |
| SubstContext.ReceivedRealm | msg_translator.c:770-852 | the same for the receiving side |
| SubstContext.OwnStrings | msg_translator.c:1014-1045 | without advertised strings both sides show their sockets, alike on one socket |
| SubstContext.Precedence | msg_translator.c:1014-1045 | the socket's advertised string wins over the message's, that over the default |
| SubstContext.ProtocolNames | msg_translator.c:768-1012 | how each protocol is written |
| Lumps.AfterSkip | msg_translator.c:662-668 | a skip lump goes forward and never past its chain |
| Lumps.ChainLenMatches | msg_translator.c:648-674 | a chain's counted length is its text's length in a consistent context |
| Lumps.SkipTest | msg_translator.c:642-646 | the passes' cursor test for ignoring a lump is true exactly if a live deletion strictly covers its anchor |
| Lumps.NoSkew | msg_translator.c:640-745 | a consistent context has no over-count on any edit list |
| Lumps.Gap | msg_translator.c:1065-1071 | copying up to the next lump emits what the position-wise meaning emits there |
| Lumps.TakeLump | msg_translator.c:1073-1144 | a live lump's texts are what the meaning has at its anchor |
| Lumps.Advance | msg_translator.c:1104-1112 | the cursors after a lump again describe all lumps before the next |
| LumpLaws.Cut | msg_translator.c:1054-1144 | a sorted list can be cut at any position: before it only the earlier lumps show, after it, under their deletions, the later ones |
| LumpLaws.LumpShown | msg_translator.c:1062-1144 | a lump's text stands after everything the lumps before it show up to its anchor, exactly if it is live |
| LumpLaws.CutClean | msg_translator.c:1054-1144 | where no deletion crosses the cut, the message is what the two parts of the list mean on their own |
| LumpLaws.RenderTo | msg_translator.c:1952-1953 | bytes past the range of the edits are taken over as they are |
| DataLump.Place | data_lump.c:369-377 | the insertion point is after all lumps at or below the offset and before those above |
| DataLump.InsertKeepsOrder | data_lump.c:369-377 | insertion keeps the list sorted, in range and adds exactly the new lump |
| DataLump.FindPlace | data_lump.c:369-373 | the loop finds that point |
| DataLump.SipMsg.DelLump | data_lump.c:330-378 | both lists stay sorted and split at the end of headers; a deletion is refused exactly by the 32-bit size check; the combined list is the old one with the deletion inserted |
| DataLump.SizeCheck | data_lump.c:338-347 | a deletion past the end passes the check only by wrapping around |
| DataLump.SipMsg.AnchorLump | data_lump.c:387-430 | the same for anchors |
| DataLump.SipMsg.InsertAfter | data_lump.c:125-148 | a piece goes first in the after chain of the lump it is given for, nothing else changes |
| DataLump.PushPiece | data_lump.c:125-175 | a piece put first leaves the rest of the chain's text and length as they were |
| DataLump.NestedLive | msg_translator.c:1054-1060 | with disjoint or nested deletions a lump takes effect exactly if no deletion strictly covers its anchor |
| DataLump.NestedDeleted | msg_translator.c:1104-1112 | and the bytes removed are exactly the union of all deletions |
| DataLump.OverlapIgnored | msg_translator.c:1055-1060 | of two partly overlapping deletions the second has no effect |
| DataLump.NewLive | msg_translator.c:1055-1060 | a new lump takes effect exactly if no live deletion covers its anchor |
| DataLump.AnchorMeaning | data_lump.c:387-430 | adding an anchor with texts, at any offset up to the end, changes the message only there: after earlier texts, before the source byte, and not at all inside a deletion |
| DataLump.BareAnchor | data_lump.c:387-430 | an anchor without texts changes nothing |
| ChainLaws.Guarded | msg_translator.c:1086-1091 | a condition guards all that follows it in its chain |
| ChainLaws.SkipToLast | msg_translator.c:1092-1098 | a skip goes on with the last piece, whatever is in between |
| ChainLaws.PlainChain | msg_translator.c:1077-1103 | chains of texts and substitutions are written one after the other |
| ChainLaws.BeforeThenAfter | msg_translator.c:1077-1144 | before texts precede after texts, and a new after text comes first among them |
| ChainLaws.Replacement | msg_translator.c:1062-1144 | a deletion with texts replaces exactly its bytes by them |
| ChainLaws.Addition | msg_translator.c:1062-1144 | an anchor adds its texts and changes nothing else |
| ChainLaws.GuardedAnchor | msg_translator.c:1086-1091 | on any message and edits a guarded text is written at its place exactly if its condition holds and no deletion covers it |
| ChainLaws.AnchorsMeaning | data_lump.c:387-430 | anchors added at one place show their texts there in the order they were added |
| ChainLaws.DoubleRoute | modules/rr/record.c:138-320 | on any message and edits double Record-Route writes one header with the sending address if the message leaves the way it came, and otherwise two marked ones, the sending address first |
| LumpCopy.DupChain | data_lump.c:482-537 | a side list is copied into new, distinct cells with the same pieces and reset flags, or refused exactly if memory does not last |
| LumpCopy.DupList | data_lump.c:482-552 | the whole copy is made of new cells, no two shared, with reset flags, and denotes the same edit list; refused exactly if memory does not last |
| MsgTranslator.LenChain | msg_translator.c:648-674 | the counting loop computes a chain's counted length |
| MsgTranslator.WriteChain | msg_translator.c:1077-1103 | the writing loop puts exactly the chain's text at the offset and touches nothing else |
| MsgTranslator.LumpsLen | msg_translator.c:449-745 | the result is the length of the rewritten range, texts at its end included, minus the original range plus the over-count of substitutions |
| MsgTranslator.ProcessLumps | msg_translator.c:752-1244 | what is written plus the source bytes left to copy is the rewritten range, and the bytes beyond are untouched |
| BodyParts.Kept | msg_translator.c:1291-1297 | the part chosen is not deleted and all before it are; none is chosen only if all are deleted |
| BodyParts.FramedLen | msg_translator.c:1407-1475 | the predicted size of a body that gets multipart framing |
| BodyParts.ReframedLen | msg_translator.c:1501-1586 | the predicted size of a multipart body whose kept parts retain their framing |
| BodyParts.Prepare | msg_translator.c:1255-1586 | in every transition (to none, to one, one to many, many to many) the prediction is the length of the body text |
| BodyParts.FramedWrite | msg_translator.c:1682-1771 | writes exactly the newly framed body |
| BodyParts.ReframedWrite | msg_translator.c:1773-1878 | writes exactly the reframed body |
| BodyParts.Reassemble | msg_translator.c:1589-1878 | appends exactly the body text |
| BodyLaws.PartEdits | msg_translator.c:1849-1860 | a received part is edited by exactly the lumps anchored in it, in order |
| BodyLaws.SinglePart | msg_translator.c:1288-1340 | with one part left, an added part is the whole body, and so is what a function made of a part, unless wrapping is kept |
| BodyLaws.SingleUnedited | msg_translator.c:1396-1406 | a received part left alone is sent as it came, with its multipart wrapping exactly if it was the only part |
| BodyLaws.SingleEdited | msg_translator.c:1600-1680 | an edited part is sent with its edits, inside that wrapping |
| BodyLaws.SingleWrapped | msg_translator.c:1600-1680 | a rewritten part inside that wrapping |
| BodyLaws.NoPart | msg_translator.c:1269-1297 | with no part left there is no body |
| BodyLaws.ReframedIdentity | msg_translator.c:1773-1878 | a multipart body whose parts are left alone is sent as received |
| BodyLaws.ReframedWithout | msg_translator.c:1782-1787 | deleting one part cuts it out with its framing and changes nothing else |
| BodyLaws.ReframedDumped | msg_translator.c:1830-1845 | a part rewritten by a function keeps its framing and gets exactly the new text and a line end |
| BodyLaws.ReframedAdded | msg_translator.c:1793-1829 | an added part goes in front of the closing delimiter, with its type and headers |
| BodyLaws.FramedReads | msg_translator.c:1682-1771 | a body that gets new framing reads back as its kept parts in order if and only if none contains the delimiter |
| BodyLaws.EntityAt | msg_translator.c:1690-1760 | each kept part is there with its own type, headers and text |
| Multipart.ReadsBack | msg_translator.c:1682-1771 | framing of any parts is read back under section 5.1.1 of RFC 2046 if and only if no part contains the delimiter |
| MessageBuild.SizesAgree | msg_translator.c:2336-2378 | with consistent addresses the predicted size equals the size written if and only if a parsed body ends with the useful part or, with no parsed body, the live edits at or past the end of the useful part gain no length |
| MessageBuild.EditsInside | msg_translator.c:1949-1953 | edits of an unparsed body that are anchored before that end never make the sizes differ |
| MessageBuild.Untouched | msg_translator.c:1949-1953 | a message without edits is sent as received up to the end of its useful part |
| MessageBuild.UntouchedParsed | msg_translator.c:1954-1964 | so is one whose several parts are all left alone, to its end |
| MessageBuild.UntouchedSingle | msg_translator.c:1954-1964 | and one whose single part is left alone, to the end of its body |
| MessageBuild.AnchorAtEnd | data_lump.c:396-420 | any text anchored at the end of a message with an unparsed body is predicted and not written, so the sizes differ by its length |
| MessageBuild.AbortAtEnd | msg_translator.c:1904-1950 | a five-byte message with one byte added at its end: six bytes predicted, five written |
| MessageBuild.AbortNullBody | msg_translator.c:1954-1964 | a body without a Content-Type and shorter than its datagram, with an added part: 13 bytes predicted, 15 written |
| MessageBuild.PassesAgree | msg_translator.c:640-745 | over all edit lists counting and writing agree if and only if the context is consistent |
| Numerals.DecimalParses | msg_translator.c:334 | the decimal text of a number reads back as that number |
| MessageBuild.AdjustClen | msg_translator.c:1971-2054 | an existing Content-Length is replaced if and only if the body length changes; a missing one is added over TCP, TLS, WS and WSS, and elsewhere but on UDP if the length changes; the value is body length plus difference, of either sign; it is one edit |
| MessageBuild.CalculateBodyDiff | msg_translator.c:1886-1910 | the difference for part edits is that of the emitted body, for lump edits that of all body lumps up to the end of the message |
| MessageBuild.ApplyChanges | msg_translator.c:1918-1965 | the buffer receives the new headers followed by the new body, for an unparsed body with the edits before the end of the useful part |
| MessageBuild.Build | msg_translator.c:2402-2470 | the allocated buffer is filled exactly with the message edited by the Content-Length and first-Via changes; over a TCP-based protocol a Content-Length is there; the number in force, new or left in place, is that of the bytes after the blank line if and only if a body was seen or nothing follows the blank line |
| MessageBuild.EditHeaders | msg_translator.c:2414-2440 | the header edits are the Content-Length edit, exactly when one is due, and then the deletion of the first Via |
| MessageBuild.ClenShown | msg_translator.c:2042-2047 | the new Content-Length line stands in the headers at its anchor exactly if its edit is live |
| MessageBuild.ClenReplaces | msg_translator.c:1996-2047 | without other edits an old line is replaced where it stands and a new one goes in front of the blank line |
| MessageBuild.ClenReads | msg_translator.c:318-349 | the line written reads back as its number |
| MessageBuild.ViaGone | msg_translator.c:2424-2440 | without other edits the first Via is cut out |
| MessageBuild.ClenRight | msg_translator.c:331-333 | body length plus difference is the number of bytes sent after the blank line if and only if a body was seen or nothing follows the blank line |
| MessageBuild.WrongClen | msg_translator.c:1954-1964 | an empty body followed by six bytes and an added part of five: the number is 5 and 11 bytes follow |
| MessageBuild.NegativeClen | msg_translator.c:331-334 | the six bytes deleted instead: the number is -6, printed as 2^64 - 6 |
| StrKey.CmpZero | map.c:61-74 | two keys compare equal exactly if their lengths and their text up to the first NUL agree |
| StrKey.CmpAntisymmetric | map.c:61-74 | swapping the keys flips the sign |
| StrKey.CmpTransitive | map.c:61-74 | the comparison is transitive, so it orders the key classes |
| StrKey.CmpOrder | map.c:61-74 | for all keys the comparison is negative exactly if the first difference seen has the smaller character in the first key or, without one, that key is shorter |
| StrKey.DictionaryOrder | map.c:61-74 | keys without a NUL: negative exactly if the first is a proper prefix or has the smaller character at the first difference |
| StrKey.NulCollision | map.c:61-74 | keys of one length that differ only after a NUL are the same key |
| AvlTree.Sparse | map.c:99-115 | a tree of height h has at least Fib(h+2)-1 nodes |
| AvlTree.PlugRep | map.c:280-449 | memory described as a hole in a context plus a subtree is the whole tree, and back |
| AvlTree.PlugOrder | map.c:280-449 | the in-order sequence of the whole is before, subtree, after |
| AvlModel.DenoteInsert | map.c:144-170 | an ordered sequence with one more node denotes the map with one more binding |
| AvlModel.DenoteRemove | map.c:280-449 | without a node it denotes the map without that key |
| AvlModel.SearchStep | map.c:103-112 | going left or right keeps the key's place inside the subtree |
| AvlModel.OrderedAscends | map.c:61-74 | a sequence increases in the comparison exactly if every key precedes the later ones |
| AvlRotate.RotateLeft | map.c:380-386 | a single rotation gives the rotated shape with all parent links right |
| AvlRotate.RotateRight | map.c:426-432 | the mirror image |
| AvlRotate.RotateRightLeft | map.c:360-378 | a double rotation gives the doubly rotated shape with exact balance factors |
| AvlRotate.RotateLeftRight | map.c:405-424 | the mirror image |
| AvlFix.FixRight | map.c:355-396 | a right-heavy node is balanced again, with the same nodes in the same order |
| AvlFix.FixLeft | map.c:402-442 | the mirror image |
| AvlMap.AvlTable.constructor | map.c:80-96 | a new table is valid and empty |
| AvlMap.AvlTable.Search | map.c:99-115 | finds the node of a key exactly if it is bound, in a number of steps logarithmic in the count |
| AvlMap.AvlTable.Find | map.c:99-115 | the slot of a key, or none exactly if it is not bound |
| AvlMap.AvlTable.FindPlace | map.c:132-142 | the leaf position of a key and the last unbalanced node above it |
| AvlMap.AvlTable.Climb | map.c:177-184 | balance factors on the way up to that node become those of the grown tree |
| AvlMap.AvlTable.Grown | map.c:186-257 | after an insertion at most one rotation, at that node, restores the tree with the same order |
| AvlMap.AvlTable.Get | map.c:123-258 | returns the existing slot, or inserts exactly one node at its place; the map gains exactly that key |
| AvlMap.AvlTable.Put | map.c:265-278 | the map is updated at the key; the old value is returned as the code does |
| AvlMap.AvlTable.SpliceLeft | map.c:301-304 | first splice case: no right child |
| AvlMap.AvlTable.SpliceRight | map.c:306-315 | second case: the right child has no left child |
| AvlMap.AvlTable.SpliceDeep | map.c:317-333 | third case: the successor deeper down takes the place |
| AvlMap.AvlTable.Rebalance | map.c:350-443 | one level: balanced again, and shorter exactly in the cases the code goes on |
| AvlMap.AvlTable.Shrunk | map.c:342-444 | the way up to the root restores the whole tree with the same order |
| AvlMap.AvlTable.DeleteNode | map.c:280-449 | ordering, exact balance factors, parent links and count are kept, and the map loses exactly that key |
| AvlMap.AvlTable.Remove | map.c:453-476 | removing a key that may be absent; the value returned is the one it had |
| AvlMap.AvlTable.First | map.c:537-552 | the node whose key precedes all others |
| AvlMap.AvlTable.Last | map.c:556-570 | the node whose key all others precede |
| AvlMap.AvlTable.Next | map.c:598-625 | the in-order successor |
| AvlMap.AvlTable.Prev | map.c:628-655 | the in-order predecessor |
| AvlMap.AvlTable.Walk | map.c:598-625 | the first node and repeated successors visit every node once, each key preceding the later ones |
| AvlMap.AvlTable.WalkBack | map.c:628-655 | the last node and repeated predecessors visit every node once in the opposite order |
| AvlMap.AvlTable.Destroy | map.c:482-501 | the rotating teardown ends and frees every node once, each key preceding the later ones; the values destroyed are theirs in that order |
| AvlMap.NonNullIs | map.c:482-501 | those values are exactly the ones that are not null |
| FutexLock.ExclusiveStep | futex_lock.h:253-274 | every step keeps at most one holder and the word 0 exactly if there is none |
| FutexLock.WakeupStep | futex_lock.h:303-308 | every step keeps that a sleeper will be told |
| FutexLock.AlwaysSafe | futex_lock.h:253-308 | both hold in every state of every run, for any number of processes |
| FutexLock.NeverAllAsleep | futex_lock.h:253-308 | whenever somebody sleeps, somebody holds, wakes or is about to exchange |
| FutexLock.Handover | futex_lock.h:253-308 | with the lock free and a sleeper, at most two steps give it to a contender, with the word 2 |
| FutexLock.OneWithSleeper | futex_lock.h:60-65 | a run that reaches the word 1 with a sleeper |
| FutexLock.OneWithoutSleeper | futex_lock.h:60-65 | the word 1 means no sleepers once no wake-up and no exchange is under way |
| ScriptReload.AlwaysInv | cfg_reload.c:141-557 | the protocol's invariant holds in every state of every run |
| ScriptReload.InstallsAgreed | cfg_reload.c:245-350 | whatever a process switches to was published under its number and parsed by every process, is never missing, and is newer than what the process used before |
| ScriptReload.ParsesSharedBuffer | cfg_reload.c:243-262 | while a process parses, the shared buffer is there and is what it parses |
| ScriptReload.BufferStable | cfg_reload.c:141-156 | the shared buffer changes only when nobody parses it |
| ScriptReload.ApproveEndorsed | cfg_reload.c:513-533 | the trigger approves only what all processes reported |
| ScriptReload.SwitchTaken | cfg_reload.c:315-352 | a switch command taken while no reload is under way installs the script it names |
| ScriptReload.SwitchObeyed | cfg_reload.c:322-327 | otherwise it is obeyed exactly if the second read of the number still matches |
| ScriptReload.SwitchLost | cfg_reload.c:322-327 | a run in which an approved and completed reload leaves a process with its old script |
| ScriptOutcome.AlwaysAccounted | cfg_reload.c:159-352 | at every point of every run and at every process, an approved reload is in use, due or lost, exactly one of these, and no other reload is any of them |
| ScriptOutcome.DropReason | cfg_reload.c:159-180 | a switch is lost only if its command cannot be sent or the process compares it when its reload is not the current one |
| ReactorTables.LinkNew | io_wait.h:375-391 | a new entry and its place in the array keep map and array in bijection |
| ReactorTables.LinkErase | io_wait.h:654-665 | erasing an entry and closing its gap does too |
| ReactorTables.InsertSegments | io_wait.h:375-391 | a descriptor put at the end of its priority's segment leaves every descriptor in its own segment |
| ReactorTables.DropSegments | io_wait.h:660-665 | so does closing a gap |
| ReactorTables.AddKeeps | io_wait.h:465-482 | the tables after an addition, accepted or refused, are consistent, except that descriptor 0 is added |
| ReactorTables.RemoveKeeps | io_wait.h:753-759 | the tables after a removal are consistent exactly if it did not ask for more than was watched |
| Reactor.IoWait.constructor | io_wait.c:524-582 | a new reactor is consistent and empty |
| Reactor.IoWait.ArraySetup | io_wait.h:375-391 | the array with the descriptor inserted at the end of its segment, the later ends moved up |
| Reactor.IoWait.Add | io_wait.h:365-632 | the whole new state for each outcome, an accepted entry with its owner and payload and its flags added; consistency is kept if and only if descriptor 0 was not added; the kernel's set keeps mirroring the map, also when the kernel refuses |
| Reactor.IoWait.CloseGap | io_wait.h:660-665 | the array without that position, the later ends moved down |
| Reactor.IoWait.Del | io_wait.h:651-904 | the whole new state, the same whether or not the kernel agrees: erased on closing or when no flag is left, else only the flags removed; consistent if and only if not more was removed than watched; the kernel's set mirrors the map if and only if the kernel agreed |
| ReactorCheck.CountDistinct | io_wait.h:350-354 | a list has as many distinct elements as positions exactly if none repeats |
| ReactorCheck.CheckIoData | io_wait.h:301-355 | the code's own check finds no fault if and only if array and map are in bijection with sound entries, and then leaves them unchanged |
| ReactorCheck.LinkedConsistent | io_wait.h:301-355 | what additions and removals keep is exactly what the check looks for together with each entry carrying its own number |
| ReactorLoop.RemoveQuiet | io_wait_loop.h:277-313 | a removal never moves an unvisited triggered entry past the scan |
| ReactorLoop.DelAllBounded | reactor_defs.h:96-97 | removing both flags without closing is within bounds exactly on descriptors not watched or watched for both |
| ReactorLoop.Visit | io_wait_loop.h:278-312 | one position, live or stale, handles its entry at most once and keeps the scan's invariant, whatever the handler removes within bounds |
| ReactorLoop.Dispatch | io_wait_loop.h:276-313 | each triggered descriptor is handled once with the payload it was registered with, unless an earlier handler erased it, and no trigger is left |
| ReactorLoop.Note | io_wait_loop.h:195-275 | a watched descriptor reported gets the read trigger for input, the write trigger for output without input, and after a mere failure the write trigger exactly if it is watched for writing; others leave the kernel's set |
| ReactorLoop.Pass | io_wait_loop.h:195-313 | a whole pass answers every event exactly once, with the owner's payload and with read or write as the event asks for, unless another handler erased the watch |
| ScriptModel.RouteMeaning | action.c:116-151 | a route ends within the stack limit, clears its return, never takes back exit or drop, lets no break escape if breaks are inside loops, and without asserts keeps the error route from running inside itself |
| ScriptModel.ErrorMeaning | action.c:161-186 | the error route keeps the same and clears the recorded error |
| ScriptModel.ListMeaning | action.c:190-210 | a list whose result is 0 has set exit; the same invariants |
| ScriptModel.ActionMeaning | action.c:641-900 | the same invariants for every statement |
| ScriptModel.PlainMeaning | action.c:675-740 | the same for the statements whose value becomes the return code |
| ScriptModel.LoopMeaning | action.c:893-946 | a while loop ends after the configured rounds and lets no break of its body escape |
| ScriptModel.CasesMeaning | action.c:1012-1080 | the cases of a switch from the first match on; only a stopping case can leave a break |
| ScriptModel.ExprMeaning | route.c:1124-1172 | expressions that run actions keep the same invariants |
| ScriptModel.EndlessRecursion | action.c:121-128 | a route that only calls itself is cut off and every level reports the error |
| ScriptModel.StrayBreak | action.c:205-207 | a break outside of any loop goes on to stop the calling route |
| ScriptModel.ErrorInsideError | action.c:693-700 | with asserts on, the error route can run inside itself |
| ScriptLaws.ListSplit | action.c:190-210 | two lists in a row: the second runs where the first left off, unless that stopped |
| ScriptLaws.Stopped | action.c:705-745 | after exit, drop, return or break the rest of a list does not matter; what each of them sets |
| ScriptLaws.CmdIs | action.c:641-1220 | a command's answer is the statement's value and the new return code |
| ScriptLaws.ZeroStops | action.c:196-198 | a command that answers 0 ends the script there |
| ScriptLaws.IfOne | action.c:858-892 | with a positive condition the second branch does not matter, otherwise the first does not |
| ScriptLaws.IfRuns | action.c:858-892 | the chosen branch runs as a list where the condition left off, and its result is the return code |
| ScriptLaws.IfExit | action.c:878-890 | exit in the first branch is run exactly if the test answers 1 |
| ScriptLaws.ShortCircuit | route.c:1124-1172 | the right side of and, or runs only if the left one did not decide; not turns 0 into 1, positive into 0 and keeps errors |
| ScriptLaws.RunValue | route.c:1124-1172 | a list as a condition is true, false or drop by the sign of its result |
| ScriptLaws.Round | action.c:893-946 | a loop unrolls: condition, body, next round; a break ends it and goes no further |
| ScriptLaws.LoopFalse | action.c:893-946 | with a condition that does not hold the body does not matter |
| ScriptLaws.RoundsCounted | action.c:893-946 | an endless loop runs its body exactly as often as the limit allows |
| ScriptLaws.CasesBefore | action.c:1012-1080 | cases before the first match do not matter |
| ScriptLaws.CaseRuns | action.c:1012-1080 | from the match on cases run in order whatever their values, until one stops |
| ScriptLaws.SwitchRuns | action.c:1012-1081 | without a match only the default runs; a matching case that stops keeps it from running, and its break ends there |
| ScriptLaws.RouteSees | action.c:1323-1334 | a route sees its own parameters and itself on top of its callers |
| ScriptLaws.RouteReturns | action.c:772-857 | a route that returns hands its code to the caller, which goes on |
| ScriptLaws.ErrorRuns | action.c:200-203 | a recorded error has the error route run before the next statement, and is cleared |
| ScriptLaws.CallbackKeeps | action.c:212-296 | a top route run by a command leaves the caller's flags alone |
| ScriptLaws.AssertStops | action.c:675-704 | an assert that fails stops the script, one that holds does not |
| ScriptLaws.CallbackSees | action.c:212-296 | a top route run by a command sees only itself on the stack, by name or as unnamed, with the caller's parameters |
| ScriptLaws.Refusals | action.c:675-1220 | an unknown route, a switch without a value, an assert while asserts are off: which error code, and that only the first keeps the return code |
| ScriptLaws.TooDeep | route.c:1124-1134 | a condition inside a hundred others is an error and nothing of it is evaluated |
| Interpreter.Process.PushLevel | action.c:1323-1334 | writes stay within 101 names and 100 parameter levels and enter one route |
| Interpreter.Process.PopLevel | action.c:1336-1340 | undoes a push, names and parameters included |
| Interpreter.Process.RunActions | action.c:116-151 | computes the route's meaning and restores the stack with its contents |
| Interpreter.Process.RunErrorRoute | action.c:161-186 | computes the error route's meaning and restores the stack |
| Interpreter.Process.RunActionList | action.c:190-210 | computes the list's meaning and restores the stack |
| Interpreter.Process.DoAction | action.c:641-1220 | computes the statement's meaning and restores the stack |
| Interpreter.Process.DoRoute | action.c:772-857 | a route call runs on one more level and comes back to the same names and parameters |
| Interpreter.Process.DoIf | action.c:858-892 | the branches and return codes of an if |
| Interpreter.Process.DoWhile | action.c:893-946 | the loop computes the loop's meaning |
| Interpreter.Process.DoSwitch | action.c:1012-1081 | fall-through from the first match, then the default unless a case stopped |
| Interpreter.Process.EvalExpr | route.c:1124-1172 | the depth-limited evaluation, with the depth restored |
| Interpreter.Process.RunTopRoute | action.c:212-296 | a top route starts the stack or continues on it, and the caller's flags and stack come back |
| Md5.CountIndex | md5.c:133 | the low count word gives the position in the buffer |
| Md5.CountAdd | md5.c:135-140 | the two-word addition with carry counts 8 times the bytes modulo 2^64 |
| Md5.IndexWraps | md5.c:151-152 | for the chunks that Update does not take, the 32-bit index wraps at the last block and the loop goes on past the end |
| Md5.HashConcat | md5.c:149-152 | hashing block by block is hashing the concatenation |
| Md5.Context.constructor | md5.c:110-119 | an initial context has seen nothing |
| Md5.Context.Update | md5.c:128-163 | after a chunk the context has seen the old bytes followed by the chunk |
| Md5.Context.Final | md5.c:170-193 | the digest is that of the padded message with its length (sections 3.1, 3.2 and 3.4 of RFC 1321) |
| Md5.DigestChunks | md5.c:110-193 | however a message is cut into chunks, the digest is that of the whole |
| Md5.InitBytes | md5.c:110-119 | the initial words are the byte sequence of section 3.3 of RFC 1321 |
| Md5.PaddedShape | md5.c:170-186 | the padded message is the message, a one bit, as few zeros as fill the block, and the length in bits, low byte first |
| Md5.PaddedApart | md5.c:170-186 | different messages are padded differently |
| ShiftRegister.ShiftsXor | crc.c:34-36 | steps of the register are linear |
| ShiftRegister.FeedAll | crc.c:34-36 | a byte in the register's low end is fed bit by bit |
| ShiftRegister.ShiftsHigh | crc.c:34-36 | eight steps move the upper bytes down |
| CrcTable.TableBits | crc.c:84-128 | each of the 256 entries is the sum of its bits' contributions |
| CcittTable.TableBits | crc.c:130-163 | the same for the CCITT table |
| Crc.Table32 | crc.c:84-128 | every entry is eight register steps of its index for polynomial 0xedb88320 |
| Crc.Table16 | crc.c:130-163 | the same for polynomial 0x8408 |
| Crc.Crc32 | crc.c:244-261 | the four-way unrolled loop computes the bit-serial register on every string |
| Crc.CcittString | crc.c:200-211 | the loop computes the complement of the bit-serial register |
| Crc.CcittStrings | crc.c:213-242 | the text for several strings is the checksum of their concatenation, lowest digit first, zero padded |
| CrcLaws.ByteChange | crc.c:34-36 | for both registers one changed byte, anywhere in a message, changes the result |
| CrcLaws.Residue32 | crc.c:244-261 | a message followed by its register, low byte first, leaves the 32-bit register at zero |
| CrcLaws.Residue16 | crc.c:200-211 | the same for the 16-bit register |
| CrcLaws.FlipIs | crc.c:210 | the complement flips all sixteen bits |
| CrcLaws.DigitsRead | crc.c:213-242 | the digits written, lowest first, read back as the number |
| BinPacket.NumBytes | bin_interface.c:171-224 | a number that fits its field reads back |
| BinPacket.PopPushed | bin_interface.c:171-387 | a pushed value is popped again if and only if its length fits the 16-bit field |
| BinPacket.RoundTrip | bin_interface.c:171-387 | any sequence of such values is popped in order and then the end is reached |
| BinPacket.NewPacket | bin_interface.c:51-99 | refused exactly if a given length has no room for the header; otherwise the header with marker, length, version, capability and command |
| BinPacket.Packet.Extend | bin_interface.c:507-532 | growing keeps the content and fails exactly past the maximum |
| BinPacket.Packet.Push | bin_interface.c:171-224 | appends the value and updates the length field; refuses exactly if it cannot grow enough, unchanged |
| BinPacket.Packet.Open | bin_interface.c:128-142 | the cursor stands after the capability that the length field at its place announces, and the command |
| BinPacket.HeaderEnd | bin_interface.c:128-142 | for a packet that was built here, that is right behind its header, whatever was pushed since |
| BinPacket.Packet.PopStr | bin_interface.c:332-363 | the string at the cursor, the end or a fault |
| BinPacket.Packet.PopInt | bin_interface.c:373-388 | the integer at the cursor, the end or a fault |
| BinPacket.Packet.SkipStr | bin_interface.c:294-320 | skipping succeeds exactly if that many pops do, with the same cursor in every outcome |
| BinPacket.Transfer | bin_interface.c:51-387 | what one node pushes another pops, with growth anywhere |
| BinPacket.PacketLength | bin_interface.c:188-223 | in every valid packet the length field reads back as the length |
| BinPacket.HeaderFields | bin_interface.c:51-99 | marker, length, version, capability and command of a new packet, each at its place |
| IpText.Parse4Exact | ip_addr.h:555-623 | the parser yields an address for exactly its printed form and, for a last byte of 0, the same text without it |
| IpText.DottedForm | ip_addr.h:503-542 | the text of an address is its four numbers in order with dots between |
| Ip6Text.RoundTrip6 | ip_addr.h:628-722 | every printed IPv6 address is read back, with or without brackets |
| Ip6Text.DoubleColon | ip_addr.h:628-722 | a double colon stands for the missing groups (section 2.2 of RFC 4291) |
| Ip6Text.DoubleColonRefused | ip_addr.h:628-722 | seven groups with the double colon at an end are refused |
| Ip6Text.Accepted6 | ip_addr.h:628-722 | read are exactly texts of hexadecimal digits and colons with one double colon and at most seven colons, or none and seven, with or without brackets |
| Ip6Text.ColonForm | ip_addr.h:446-502 | the text of an address is its eight groups in order with colons between |
| Ip6Text.HexReads | ip_addr.h:446-502 | a group's text is its number in hexadecimal |
| Ip6Text.JoinedPlain | ip_addr.h:446-502 | printed groups fit their share of the buffer |
| IpAddr.Print4 | ip_addr.h:503-542 | prints the dotted form inside the 40-byte buffer |
| IpAddr.Print6 | ip_addr.h:446-502 | prints the colon form inside the 40-byte buffer |
| IpAddr.StrToIp | ip_addr.h:555-623 | the loop computes the parse |
| IpAddr.StrToIp6 | ip_addr.h:628-722 | the loop computes the parse |

## Left out

- MsgTranslator.LumpsLen, MsgTranslator.ProcessLumps: additions on the main list (marked as broken in the source) are not modelled; conditional lumps are not marked as already evaluated; deletions end by the end of the range a pass is given.
- MessageBuild.Build: the response path only; the request path adds Via lumps and a rewritten request URI around the same passes. Memory failure, 32-bit overflow of the new length, a header deletion that reaches into the body, an edit between the two bytes of the blank line and a body deletion across the end of the useful part are not modelled.
- BodyParts.Prepare: the Content-Type header edits made along the way and SDP operations are not modelled; the dump functions are outcomes given with the part.
- Multipart.ReadsBack: the reader is that of the standard; the one in parser/parse_body.c, which goes on searching only behind a boundary's length after any two hyphens, is not modelled.
- ChainLaws.DoubleRoute: buffered parameters of an earlier call and the ignored user name are not modelled.
- DataLump.SipMsg: the lists are sequences, not linked cells; lump flags and the deletion of flagged lumps are not modelled.
- LumpCopy.DupList: what is leaked when memory runs out is not modelled.
- AvlMap.AvlTable: values are integers with 0 for the null pointer; allocation succeeds; `map_for_each` and the shared-memory variant are not modelled.
- FutexLock: the number of spins is any number; fairness and time are not modelled.
- ScriptReload: one process triggers all reloads; sequence numbers do not wrap; parsing is an oracle and a failed parse only reports failure; a process that keeps its previous script for running asynchronous jobs refuses at any time; `self_update_routing_script` and route timers are not modelled.
- Reactor.IoWait: only the epoll method; event masks in the array, timeouts and application flags are not modelled.
- Reactor.IoWait.Add: priorities are below the configured number, although the source also lets the number itself pass.
- ReactorLoop.Pass, ReactorLoop.Dispatch, ReactorLoop.Visit: repeat is off, no timeouts are set and handlers only remove watches, none with more flags than its entry has at that moment; what more flags do is stated by Reactor.IoWait.Del.
- Interpreter.Process.DoAction: `for-each`, asynchronous statements, assignments and logging are not modelled.
- Interpreter.Process.RunErrorRoute: the variant that starts a new route stack is not modelled.
- Interpreter.Process: `abort_on_assert` is off; routes past the table are refused like invalid numbers.
- Md5.Context.Update: chunks on which the source's 32-bit index wraps, all within 64 bytes of 2^32, are excluded (Md5.IndexWraps); the block transformation is a parameter.
- BinPacket: numbers are stored low byte first, as on the usual hosts; packets are not truncated from the end.
- BinPacket.NewPacket: a capability that does not fit the default buffer, which the source does not check for, is excluded.
- IpAddr.StrToIp: an empty string is refused; the source reads one character before it looks at the length.
- Configuration grammar, SIP parsing, transactions, transports, DNS, timers, memory managers and all modules.
