# twemproxy core, modelled and proved in Dafny

twemproxy (nutcracker) is a proxy for memcached and redis servers. This project models the parts
of it whose correctness is hardest to see from the C code, and proves what they promise. All
statements are for every input, every reachable state or every run.

* **Timer tree** (`StableQueue.dfy`, `RbTree.dfy`). The intrusive red-black tree on linked nodes with
  parent pointers and one shared sentinel. `Tree.Valid()` says that the links form a search tree, that
  it is red-black (black root and sentinel, no red node with a red child, the same number of black nodes
  on every path), and that its in-order listing is what the run of inserts and deletes so far makes of a
  plain sorted list. Insert, delete and min keep it, so every run is a stable priority queue: sorted by
  key, first in first out among equal keys. The root's parent is not constrained, because deleting a root
  leaves it stale.
* **MD5** (`Rfc1321.dfy`, `Md5.dfy`, `Md5Answers.dfy`). The streaming context against sections 3.1 to 3.5 of
  RFC 1321, with 32-bit wrap-around, the 29/32-bit byte count and both padding paths. What the model calls MD5 is
  held to two answers of appendix A.5.
* **kqueue event base** (`Kqueue.dfy`). The deferred change list, the kernel's registrations and the batch
  of returned events. `EventBase.Valid()` says that the pending changes, applied in order, leave exactly the
  registrations that the connections' flags say, and that every event for which a callback can still be
  made belongs to a live connection and was among the registrations the batch was taken from. The kernel may refuse additions, kevent() may fail with part of the
  list applied, and a descriptor may be closed under the base; the sets `astray` and `doubt` are the
  descriptor-filter pairs for which that has happened since, or had when the batch was returned, and outside
  them the invariant holds as it stands.
* **Continuum** (`Continuum.dfy`, `ServerPool.dfy`). The weighted table of the modula and random
  distributions, its capacity, and the deadline until which it may be kept.
* **Formatter** (`Division.dfy`, `Exponents.dfy`, `Numerals.dfy`, `SafeFormat.dfy`). `_safe_vsnprintf` against an
  unbounded rendering, and that rendering against what each conversion promises.
* **Hashes**. Each definition is held to known answers as well. The three readers of Jenkins' hash against one block-wise definition (`Jenkins.dfy`); the
  table-driven CRCs against bit-by-bit polynomial division (`Crc32.dfy`, `Crc16.dfy`); the FNV,
  one-at-a-time and murmur hashes, whose steps are bijections modulo 2^32, so that keys which differ in one
  place never collide (`Chars.dfy`, `Word32.dfy`, `Bytewise.dfy`, `Fnv.dfy`, `OneAtATime.dfy`, `Murmur.dfy`).

What the code does that its own text does not say:

* `event_del_conn` eliminates one pending event of the descriptor and its comment says there should be at
  most one. `Kqueue.EventBase.DelConn` proves that a callback is left for the connection exactly if a
  deliverable event is pending for it behind another event of its descriptor; `Kqueue.TwoPendingEvents` is a
  run in which there is; `Kqueue.EventBase.CoreClose` proves that there is none where the proxy closes a
  connection (`core_close`, lines 226-254 of `src/nc_core.c`) as long as no change for it failed; and
  `Kqueue.RefusedAddition` is a run in which additions are refused, kevent() answers with their errors alone,
  and a callback is left even there.
* `server_pool_conn` (lines 766-768 of `src/nc_server.c`) closes a connection whose connect failed without
  `event_del_conn`. `Kqueue.EventBase.AbandonedCallback` proves exactly when the kevent() that applies its
  additions calls such a connection back: no change fails, the number of its descriptor is open again, and for
  one of its filters no change came after its own; or the kernel refuses one of its additions for a reason that
  is not passed over. When other changes fail, `Kqueue.EventBase.AbandonedRegistered` says exactly whether it is
  registered all the same, and `Kqueue.EventBase.IdleCallback` that the next kevent() calls it back if it is.
  The proxy's own connections are added as soon as they have the number, which rules the first out for them;
  `Kqueue.FailedConnect` is the run in which a descriptor that is not a connection's has it, such as the log file
  that `log_reopen` opens (lines 63-75 of `src/nc_log.c`).
* `server_pool_update` (lines 608-654 of `src/nc_server.c`) skips the rebuild while `now <= next_rebuild`.
  `ServerPool.Pool.PoolUpdate` proves when that is right. With a live server the table kept is the one an
  update would leave if and only if it has as many slots as the live weight and `now != next_rebuild`; with
  none it is kept anyway, and requests are refused wrongly exactly at `now == next_rebuild`.
  `ServerPool.DeadlineMissed`, `ServerPool.MemoryRunsOut` and `ServerPool.RefusedAtDeadline` are runs in which
  it is wrong.
* The comment at line 114 of `src/nc_string.h` counts the NUL in the result of `_safe_vsnprintf`. The code does
  not, and the model follows the code.

`dafny verify dfyconfig.toml` checks the whole project.

## Model

| member | source | states |
|---|---|---|
| `StableQueue.PutAt` | src/nc_rbtree.c:141-151 | a new entry goes after all entries with keys up to its own and before all others |
| `StableQueue.TakeAt` | src/nc_rbtree.c:203-275 | taking an item out leaves the other entries in their order |
| `StableQueue.PutMembers` | src/nc_rbtree.c:121-201 | after an insert the entries are the old ones and the new one |
| `StableQueue.TakeMembers` | src/nc_rbtree.c:203-344 | after a delete the entries are exactly those of the other items |
| `StableQueue.RunInOrder` | src/nc_rbtree.c:121-344 | after every legal run of inserts and deletes the list is sorted by key and, among equal keys, by time of arrival |
| `RbTree.Tree.constructor` | src/nc_rbtree.c:31-38 | the initial tree is valid, empty, and its run is empty |
| `RbTree.Tree.NodeInit` | src/nc_rbtree.c:20-29 | links and data become null, the key 0, the colour stays |
| `RbTree.Tree.NodeMin` | src/nc_rbtree.c:40-50 | the node found is the first of the subtree in listing order, and the walk takes at most 2*log2(n+1) steps |
| `RbTree.Tree.Min` | src/nc_rbtree.c:52-65 | null for an empty tree, otherwise the head of the sorted list that the run of operations makes |
| `RbTree.Tree.SoleParent` | src/nc_rbtree.c:67-119 | in every consistent tree only the parent's one child link leads to a node, and none to the root |
| `RbTree.Tree.RotatedShape` | src/nc_rbtree.c:67-119 | after a rotation in either direction all parent and child links, the listing and every subtree's span are consistent |
| `RbTree.Tree.LeftRotateLinks` | src/nc_rbtree.c:67-92 | the right child takes the node's place, the node becomes its left child, the inner subtree changes sides, and no other link changes |
| `RbTree.Tree.RightRotateLinks` | src/nc_rbtree.c:94-119 | the mirror image of the left rotation |
| `RbTree.Tree.LeftRotate` | src/nc_rbtree.c:67-92 | a left rotation keeps the tree consistent and the listing as it was |
| `RbTree.Tree.RightRotate` | src/nc_rbtree.c:94-119 | a right rotation keeps the tree consistent and the listing as it was |
| `RbTree.Tree.RecolouredInv` | src/nc_rbtree.c:164-168 | recolouring parent, uncle and grandparent moves the only possible red-red pair up to the grandparent and keeps all black counts |
| `RbTree.Tree.Recolour` | src/nc_rbtree.c:164-168 | the red-uncle case keeps the insert invariant for the grandparent |
| `RbTree.Tree.StraightenLeft` | src/nc_rbtree.c:170-173 | rotating the parent turns an inner grandchild into an outer one and keeps the insert invariant |
| `RbTree.Tree.StraightenRight` | src/nc_rbtree.c:188-191 | the mirror image |
| `RbTree.Tree.LiftedInv` | src/nc_rbtree.c:175-177 | exchanging colours and rotating the grandparent ends the red-red pair and keeps all black counts |
| `RbTree.Tree.LiftRight` | src/nc_rbtree.c:175-177 | after the last rotation the node's parent is black and the insert invariant holds |
| `RbTree.Tree.LiftLeft` | src/nc_rbtree.c:193-195 | the mirror image |
| `RbTree.Tree.InsertFixLeft` | src/nc_rbtree.c:161-178 | one turn of the loop on the left side keeps the insert invariant and either moves up or ends it with at most two rotations |
| `RbTree.Tree.InsertFixRight` | src/nc_rbtree.c:179-197 | the same on the right side |
| `RbTree.Tree.InsertFixup` | src/nc_rbtree.c:159-200 | the loop ends, with at most two rotations in all, in a red-black tree |
| `RbTree.Tree.PaintRoot` | src/nc_rbtree.c:200 | blackening the root turns the insert invariant into a red-black tree |
| `RbTree.Tree.PlantRoot` | src/nc_rbtree.c:130-137 | inserting into the empty tree gives the red-black tree of that one node |
| `RbTree.Tree.Narrow` | src/nc_rbtree.c:144 | going left for a smaller key and right otherwise keeps the place after all keys up to the new one inside the subtree |
| `RbTree.Tree.FindSlot` | src/nc_rbtree.c:141-149 | the descent ends at a free link whose place in the listing is after all keys up to the new one, within 2*log2(n+1) steps |
| `RbTree.Tree.LinkLeaf` | src/nc_rbtree.c:151-155 | the new node is a red leaf under its parent and no other link or colour changes |
| `RbTree.Tree.AttachedInv` | src/nc_rbtree.c:151-155 | a red leaf at a free link keeps links, listing and black counts, and only it can be in a red-red pair |
| `RbTree.Tree.Attach` | src/nc_rbtree.c:151-155 | linking the new leaf puts it at its place in the listing and establishes the insert invariant |
| `RbTree.Tree.InsertNode` | src/nc_rbtree.c:121-201 | the result is red-black, holds the old nodes and the new one, and lists the new node after all keys up to its own |
| `RbTree.Tree.Insert` | src/nc_rbtree.c:121-201 | for every valid tree, equal keys included: the tree stays valid, the run grows by this insert, at most 2 rotations and 2*log2(n+1) steps; no key or data changes |
| `RbTree.Tree.PickSubst` | src/nc_rbtree.c:213-222 | the node to take out has a free child link; it is the node itself or, when both children are there, its successor in the listing |
| `RbTree.Tree.DeleteRoot` | src/nc_rbtree.c:224-231 | replacing a root with at most one child by that child leaves a red-black tree without the root; the child's parent link may be stale |
| `RbTree.Tree.UprootedInv` | src/nc_rbtree.c:224-231 | the tree without its old root is red-black |
| `RbTree.Tree.Bypass` | src/nc_rbtree.c:235-239 | the one link to the successor leads to its child, all others stay |
| `RbTree.Tree.Detach` | src/nc_rbtree.c:235-249 | the successor's link leads to its child, whose parent is the successor itself if that was the node's child |
| `RbTree.Tree.StandIn` | src/nc_rbtree.c:251-272 | the successor takes over the node's links, colour and place, and the node's children hang under it |
| `RbTree.Tree.UnlinkLinks` | src/nc_rbtree.c:235-273 | both steps together, also when the successor is the node's own child |
| `RbTree.Tree.Retire` | src/nc_rbtree.c:275 | the unlinked node leaves the listing, the positions close up, and it is blank |
| `RbTree.Tree.UnlinkSelf` | src/nc_rbtree.c:235-242 | a node with a free child link is cut out and its child takes its place |
| `RbTree.Tree.UnlinkSubst` | src/nc_rbtree.c:235-275 | a node with two children is cut out and its successor stands in for it |
| `RbTree.Tree.SplicedInv` | src/nc_rbtree.c:233-279 | after unlinking, the links and the listing are consistent; the tree is red-black if the node taken out was red and one black node short on one known side otherwise |
| `RbTree.Tree.Unlink` | src/nc_rbtree.c:233-279 | exactly the node is gone from the listing, it is blank, and the tree is red-black or satisfies the delete invariant |
| `RbTree.Tree.SiblingExists` | src/nc_rbtree.c:286-314 | under the delete invariant the sibling w is never the sentinel |
| `RbTree.Tree.SiblingRedLeft` | src/nc_rbtree.c:288-293 | the red-sibling case keeps the delete invariant, makes the sibling black and the parent red, although temp is one level deeper |
| `RbTree.Tree.SiblingRedRight` | src/nc_rbtree.c:316-321 | the mirror image |
| `RbTree.Tree.PushedUpInv` | src/nc_rbtree.c:295-297 | with two black nephews the missing black node moves to the parent |
| `RbTree.Tree.PushUp` | src/nc_rbtree.c:295-297 | reddening the sibling keeps the delete invariant for the parent |
| `RbTree.Tree.NearNephewLeft` | src/nc_rbtree.c:299-304 | rotating a red near nephew above the sibling keeps the delete invariant and gives a red far nephew |
| `RbTree.Tree.NearNephewRight` | src/nc_rbtree.c:327-332 | the mirror image |
| `RbTree.Tree.ClosedInv` | src/nc_rbtree.c:306-310 | with a red far nephew the last rotation restores all black counts |
| `RbTree.Tree.CloseLeft` | src/nc_rbtree.c:306-310 | no black node is missing any more and the root is black |
| `RbTree.Tree.CloseRight` | src/nc_rbtree.c:334-338 | the mirror image |
| `RbTree.Tree.DeleteFixLeft` | src/nc_rbtree.c:285-311 | one turn of the loop on the left side keeps the delete invariant and either moves up or ends it with at most three rotations |
| `RbTree.Tree.DeleteFixRight` | src/nc_rbtree.c:313-340 | the same on the right side |
| `RbTree.Tree.PaintTemp` | src/nc_rbtree.c:343 | blackening temp turns the delete invariant into a red-black tree |
| `RbTree.Tree.DeleteFixup` | src/nc_rbtree.c:283-343 | the loop ends, with at most three rotations in all, in a red-black tree |
| `RbTree.Tree.DeleteNode` | src/nc_rbtree.c:203-344 | the result is red-black and lists the old nodes without the deleted one |
| `RbTree.Tree.Delete` | src/nc_rbtree.c:203-344 | for every valid tree and every node in it: the tree stays valid, the run grows by this delete, the node is blank, at most 3 rotations; no key or data of another node changes |
| `RbTree.Tree.Sorted` | src/nc_rbtree.c:141-149 | every tree that a run has led to lists its keys in order |
| `RbTree.Tree.SubtreeSize` | src/nc_rbtree.c:40-50 | a subtree with b black nodes on each path has at least 2^b - 1 nodes |
| `RbTree.Tree.PathSlack` | src/nc_rbtree.c:40-50 | a path has at most twice as many nodes as black ones |
| `RbTree.Tree.PathBound` | src/nc_rbtree.c:40-50 | in a red-black tree of n nodes no path from the root has more than 2*log2(n+1) nodes |
| `RbTree.LogarithmicIs` | src/nc_rbtree.c:40-50 | such a bound is at most 2k steps in a tree of fewer than 2^k nodes |
| `Md5.FMacroIsF` | src/hashkit/nc_md5.c:47 | F without and-not is the F of section 3.4 of RFC 1321 |
| `Md5.GMacroIsG` | src/hashkit/nc_md5.c:48 | G without and-not is the G of section 3.4 |
| `Md5.StepIsOperation` | src/hashkit/nc_md5.c:55-58 | STEP is the operation [abcd k s i] of section 3.4 |
| `Md5.Row1All` | src/hashkit/nc_md5.c:109-124 | the unrolled steps of round 1 are operations 1 to 16 with their words, shifts and table entries |
| `Md5.Row2All` | src/hashkit/nc_md5.c:126-142 | the unrolled steps of round 2 are operations 17 to 32 |
| `Md5.Row3All` | src/hashkit/nc_md5.c:144-160 | the unrolled steps of round 3 are operations 33 to 48 |
| `Md5.Row4All` | src/hashkit/nc_md5.c:162-178 | the unrolled steps of round 4 are operations 49 to 64 |
| `Md5.BlockIsCompress` | src/hashkit/nc_md5.c:102-186 | one turn of the loop of body is the block step of section 3.4 |
| `Md5.CompressAllAppend` | src/hashkit/nc_md5.c:88-194 | compressing whole blocks one part after the other is compressing them together |
| `Md5.CountCarries` | src/hashkit/nc_md5.c:214-218 | the 29-bit sum with its carry and the shifted size are the two parts of the new byte count |
| `Md5.Context.constructor` | src/hashkit/nc_md5.c:196-206 | the initial context is in step with the empty message |
| `Md5.Context.Body` | src/hashkit/nc_md5.c:88-194 | the chaining state becomes that of all blocks of the data |
| `Md5.Context.Count` | src/hashkit/nc_md5.c:214-218 | lo and hi hold the byte count modulo 2^29 and the next 32 bits of it |
| `Md5.Context.Keep` | src/hashkit/nc_md5.c:225-228 | data that does not fill the buffer is only kept, and the context stays in step |
| `Md5.Context.Complete` | src/hashkit/nc_md5.c:230-233 | data that fills the buffer completes a block, which is compressed |
| `Md5.Context.Blocks` | src/hashkit/nc_md5.c:236-239 | whole blocks are compressed in place |
| `Md5.Context.Absorb` | src/hashkit/nc_md5.c:220-241 | for every fill level and every size the context is in step with the message and the data after it |
| `Md5.Context.Update` | src/hashkit/nc_md5.c:208-242 | the context of a message becomes the context of the message and the data after it, counters included |
| `Md5.ChunkingIndependent` | src/hashkit/nc_md5.c:208-242 | contexts of the same message have the same counters, chaining state and used part of the buffer |
| `Md5.ChunkByChunk` | src/hashkit/nc_md5.c:208-242 | one update for each chunk, in any cut and with empty chunks, leaves what one update with all of them leaves |
| `Md5.PadSplits` | src/hashkit/nc_md5.c:249-274 | the digest of the padded message is the state of its whole blocks carried on through the padded rest |
| `Md5.TailBlocks` | src/hashkit/nc_md5.c:255-262 | the padded rest is one block when eight bytes are free after the 0x80 and two otherwise |
| `Md5.BitLength` | src/hashkit/nc_md5.c:264-272 | lo << 3 and hi are the two words of the bit length modulo 2^64 |
| `Md5.Context.Seal` | src/hashkit/nc_md5.c:262-272 | the buffer is what was in use, zeros, and the eight length bytes |
| `Md5.Context.Finish` | src/hashkit/nc_md5.c:249-274 | the state becomes that of the padded rest, in one block or in two |
| `Md5.Context.Final` | src/hashkit/nc_md5.c:244-294 | the result is the digest of the message by RFC 1321, and the context is wiped |
| `Md5.Signature` | src/hashkit/nc_md5.c:300-308 | the signature of a key is its digest |
| `Md5.HashMd5` | src/hashkit/nc_md5.c:310-321 | the hash is the word A of the digest |
| `Rfc1321.Pad` | src/hashkit/nc_md5.c:249-272 | the padded message is whole blocks and the shortest such with room for the 1 bit and the length |
| `Md5Answers.InitialBytes` | src/hashkit/nc_md5.c:199-202 | the initial state is, low-order byte first, the sixteen bytes of section 3.3: 01 23 45 67 89 ab cd ef and these backwards |
| `Md5Answers.EmptyAnswer` | src/hashkit/nc_md5.c:300-321 | the digest of the empty string is d41d8cd98f00b204e9800998ecf8427e (appendix A.5), and its hash 0xd98c1dd4 |
| `Md5Answers.AbcAnswer` | src/hashkit/nc_md5.c:300-321 | the digest of "abc" is 900150983cd24fb0d6963f7d28e17f72, and its hash 0x98500190 |
| `Kqueue.AppliedIsNet` | src/event/nc_kqueue.c:259-275 | what kevent() makes of the change list is what the list says, for every descriptor and filter that is open and has no refused addition |
| `Kqueue.ErrorEvents` | src/event/nc_kqueue.c:286-309 | every error event comes from a failed change; a callback is made only for an addition that the kernel refuses for another reason than those passed over |
| `Kqueue.ErrorReaches` | src/event/nc_kqueue.c:286-321 | an error callback is made for a connection, live or deleted, if and only if an addition for it is in the list, its descriptor number is open and the kernel refuses it for such a reason |
| `Kqueue.NetWithout` | src/event/nc_kqueue.c:226-229 | closing a descriptor drops its registrations and leaves those of the others, before and after pending changes |
| `Kqueue.NetOfPrefix` | src/event/nc_kqueue.c:273-275 | changes that were not applied matter only to their own descriptors and filters |
| `Kqueue.RegisteredIsExact` | src/event/nc_kqueue.c:259-275 | for every list and every refusal: a connection, live or not, is registered for a filter once the list is applied if and only if the number is open and it was, or a change that is not refused made it so, with only refused additions for that filter after it |
| `Kqueue.AbandonedIsExact` | src/event/nc_kqueue.c:196-210 | an addition left in the list registers its connection if and only if the number is open and no change after it is for that filter |
| `Kqueue.EventBase.constructor` | src/event/nc_kqueue.c:24-81 | a new base is valid and has nothing pending |
| `Kqueue.EventBase.Turned` | src/event/nc_kqueue.c:106-194 | turning one flag together with its change keeps flags and registrations in agreement |
| `Kqueue.EventBase.AddIn` | src/event/nc_kqueue.c:106-126 | the base stays valid, the flag is set, and one change, EV_ADD with EV_CLEAR for the read filter, is queued exactly if it was not set; the change ends what went astray there |
| `Kqueue.EventBase.DelIn` | src/event/nc_kqueue.c:128-148 | the base stays valid, the flag is cleared, and one change, EV_DELETE for the read filter, is queued exactly if it was set |
| `Kqueue.EventBase.AddOut` | src/event/nc_kqueue.c:150-171 | the same for the write filter |
| `Kqueue.EventBase.DelOut` | src/event/nc_kqueue.c:173-194 | the same for the write filter |
| `Kqueue.EventBase.AddConn` | src/event/nc_kqueue.c:196-210 | the base stays valid and the changes for both filters are queued in order |
| `Kqueue.EventBase.Eliminate` | src/event/nc_kqueue.c:230-237 | the first event of the descriptor after the current one is eliminated and no other changes |
| `Kqueue.EventBase.StillBacked` | src/event/nc_kqueue.c:230-237 | eliminating an event leaves the others backed by those registrations |
| `Kqueue.EventBase.StaleSurvives` | src/event/nc_kqueue.c:225-237 | a callback is left for the deleted connection exactly if a deliverable event names it that is not the first of its descriptor |
| `Kqueue.EventBase.SurvivorIsSecond` | src/event/nc_kqueue.c:225-237 | where no change failed, exactly if a deliverable event of its descriptor is pending behind another event of it |
| `Kqueue.EventBase.NoneLeft` | src/event/nc_kqueue.c:225-237 | if there is none, the batch invariant holds without the connection |
| `Kqueue.EventBase.OneLeft` | src/event/nc_kqueue.c:225-237 | if there is one, it does not |
| `Kqueue.EventBase.DelConn` | src/event/nc_kqueue.c:212-240 | both registrations are given up; a callback for the connection is left, and the base not valid, if and only if a deliverable event of its descriptor is pending behind another event of it; the exact condition also where a change failed |
| `Kqueue.EventBase.CurrentHasAtMostOne` | src/event/nc_kqueue.c:225-229 | in the callback of a connection's own event, where no change for it failed, at most one other event is pending |
| `Kqueue.EventBase.NoDoubtIsClear` | src/event/nc_kqueue.c:225-229 | as long as no change has failed, that is so for every connection |
| `Kqueue.EventBase.CoreClose` | src/event/nc_kqueue.c:225-240 | closing the current connection, if no change for it failed, or any between batches, keeps the base valid and leaves no callback for it |
| `Kqueue.EventBase.Open` | src/event/nc_kqueue.c:292-303 | a descriptor number that was closed can be used again for another connection |
| `Kqueue.EventBase.Close` | src/event/nc_kqueue.c:292-303 | closing the descriptor of a deleted connection keeps the base valid while its deletes are still pending |
| `Kqueue.EventBase.Abandon` | src/event/nc_kqueue.c:196-210 | closing a connection newer than the batch without deleting it keeps the base valid, drops its registrations, and leaves astray exactly the filters that were on |
| `Kqueue.EventBase.ConnectFails` | src/event/nc_kqueue.c:196-210 | a connect that fails after event_add_conn leaves the two additions at the end of the change list, with the descriptor closed and the base valid |
| `Kqueue.EventBase.Take` | src/event/nc_kqueue.c:292-303 | a descriptor that no connection owns may take any free number |
| `Kqueue.EventBase.CalledBackIsExact` | src/event/nc_kqueue.c:273-321 | an answer of kevent() has a callback for a connection, live or not, if and only if the error of an addition for it is reported or, when no change failed, it is registered |
| `Kqueue.EventBase.AbandonedRegistered` | src/event/nc_kqueue.c:196-275 | whatever fails, it is registered for one of its filters if and only if its number is open, the addition is not refused and only refused additions for that filter come after it |
| `Kqueue.EventBase.AbandonedCallback` | src/event/nc_kqueue.c:196-321 | the kevent() that applies its additions calls a connection back that a failed connect has closed if and only if no change fails, its number is open and for one of its filters no change came after its own, or one of its additions is refused for a reason that is not passed over |
| `Kqueue.EventBase.IdleCallback` | src/event/nc_kqueue.c:273-321 | a kevent() with nothing to apply calls a connection back, live or not, if and only if it is registered |
| `Kqueue.EventBase.AnswerAgrees` | src/event/nc_kqueue.c:273-275 | after the first n changes are applied the registrations are those of the flags, except where they were not before, where an addition was refused and where changes were not applied |
| `Kqueue.EventBase.AnswerExists` | src/event/nc_kqueue.c:273-274 | whatever the kernel refuses, its error events fit in the event list, so that there is an answer with the errors alone |
| `Kqueue.EventBase.AnswerHanded` | src/event/nc_kqueue.c:273-309 | errors come first, a deliverable one only where an addition was refused; every event whose registration is not astray belongs to a live connection |
| `Kqueue.EventBase.AnswerBacked` | src/event/nc_kqueue.c:273-277 | every event of a batch behind its errors is one of the registrations that kevent() left |
| `Kqueue.EventBase.Flush` | src/event/nc_kqueue.c:273-277 | whatever the kernel refuses, the change list is applied and emptied, the batch is there and is taken from the registrations this leaves, the base is valid, and what is astray is known |
| `Kqueue.EventBase.FlushFails` | src/event/nc_kqueue.c:273-275 | when kevent() fails with any part of the list applied, the list is emptied all the same, the base is valid, and what is astray is known |
| `Kqueue.EventBase.Dispatch` | src/event/nc_kqueue.c:279-321 | no call is made exactly for an error that is passed over and for an event of neither filter that is no error; EVENT_READ, EVENT_WRITE and EVENT_ERR say the filter and whether it is an error; a filter without EVENT_ERR is reported to a connection only if (descriptor, filter) was registered for it when the batch was returned; where no change failed, the connection is live, has that descriptor and sees no EVENT_ERR |
| `Kqueue.EventBase.Advance` | src/event/nc_kqueue.c:277-278 | going on to the next event keeps the base valid |
| `Kqueue.TwoPendingEvents` | src/event/nc_kqueue.c:225-237 | a run in which a connection other than the current one is deleted with two events pending and a callback for it is left |
| `Kqueue.RefusedAddition` | src/event/nc_kqueue.c:212-309 | a run in which two additions are refused and the batch is their errors and that of the delete between them; the connection is deleted in its error callback, and a callback for it is left |
| `Kqueue.FailedConnect` | src/event/nc_kqueue.c:196-210 | a run in which a connect fails, a descriptor that is not a connection's takes the number, and the connection is called back after it is gone |
| `Continuum.DeadlineIsFirst` | src/hashkit/nc_modula.c:53-66 | the deadline is the earliest retry time still to come, and 0 exactly if no server is ejected |
| `Continuum.CacheSound` | src/hashkit/nc_modula.c:43-132 | before the deadline, or at any time without one, an update finds the same live servers, table and deadline |
| `Continuum.DeadlineBringsBack` | src/hashkit/nc_modula.c:43-85 | from the deadline on an update finds strictly more live servers |
| `Continuum.SlotsCount` | src/hashkit/nc_modula.c:113-132 | a live server has as many slots as its weight and an ejected one none |
| `Continuum.SlotsLength` | src/hashkit/nc_modula.c:70-74 | the table has as many slots as the live servers' weights together, each with the index of a server |
| `Continuum.WindowIsFair` | src/hashkit/nc_modula.c:145-156 | any window of as many consecutive hashes as there are slots picks every slot once |
| `Continuum.DispatchByWeight` | src/hashkit/nc_modula.c:113-156 | any such window picks each live server exactly weight times and an ejected one never |
| `Continuum.UnitIsModula` | src/hashkit/nc_random.c:106-122 | with all weights 1 the random distribution's table is modula's |
| `ServerPool.Pool.CountLive` | src/hashkit/nc_modula.c:43-85 | servers that are back lose their retry time; deadline, live count and live weight are those of the servers at that time |
| `ServerPool.Pool.Reserve` | src/hashkit/nc_modula.c:98-111 | the table is kept, room grows to the slots needed and ten more exactly if they do not fit, and failed allocation changes nothing |
| `ServerPool.Pool.FillWeighted` | src/hashkit/nc_modula.c:113-132 | the filled slots are the weighted table of the live servers and never exceed the allocated ones |
| `ServerPool.Pool.FillUnit` | src/hashkit/nc_random.c:106-122 | the filled slots are the unit-weight table of the live servers |
| `ServerPool.Pool.ModulaUpdate` | src/hashkit/nc_modula.c:28-143 | the whole new state in every case: no clock, no live server, no memory, success |
| `ServerPool.Pool.UpdatedIsLeft` | src/hashkit/nc_modula.c:43-143 | after an update the deadline and the live count are those of the servers, and the table is too if and only if the update did not run out of memory |
| `ServerPool.Pool.UpdateAgain` | src/hashkit/nc_modula.c:43-143 | another update before the deadline needs no memory and leaves table, servers, count and deadline as they are |
| `ServerPool.Pool.FilledIsCurrent` | src/hashkit/nc_modula.c:98-132 | the table that an update leaves is that of the live servers if and only if it has as many slots as their weight |
| `ServerPool.Pool.KeptIsExact` | src/hashkit/nc_modula.c:51-132 | up to the deadline, with a live server, the pool's table is the one an update would leave if and only if it has as many slots as the live weight and it is not the very moment of the deadline |
| `ServerPool.Pool.NoneLiveIsExact` | src/hashkit/nc_modula.c:78-86 | without a live server the table is kept before the deadline, and a server is back exactly at it |
| `ServerPool.Pool.PicksByWeight` | src/hashkit/nc_modula.c:113-156 | after such an update any window of ncontinuum consecutive hashes picks each live server exactly weight times and an ejected one never |
| `ServerPool.Pool.RandomUpdate` | src/hashkit/nc_random.c:28-133 | the same with unit weights; with all weights 1 it leaves exactly what modula_update would leave |
| `ServerPool.Pool.UpdatedIsUnit` | src/hashkit/nc_random.c:41-133 | the table is the unit-weight one of the live servers if and only if the update did not run out of memory |
| `ServerPool.Pool.PicksOnce` | src/hashkit/nc_random.c:106-146 | after such an update any window of ncontinuum consecutive numbers picks each live server exactly once and an ejected one never |
| `ServerPool.Pool.ModulaDispatch` | src/hashkit/nc_modula.c:145-156 | the server of slot hash modulo the number of slots |
| `ServerPool.Pool.RandomDispatch` | src/hashkit/nc_random.c:135-146 | the server of slot random number modulo the number of slots, whatever the hash |
| `ServerPool.Pool.PoolUpdate` | src/hashkit/nc_modula.c:51-85 | server_pool_update, which reads the next_rebuild set here: the pool is left alone without ejection, without a deadline and up to the deadline, and updated after it; exactly when the table left alone, or the refusal, is right |
| `ServerPool.DeadlineMissed` | src/hashkit/nc_modula.c:51-85 | a run in which the pool is left alone at the deadline although an update would add a server |
| `ServerPool.MemoryRunsOut` | src/hashkit/nc_modula.c:98-111 | a run after which the table stays too short at every later time |
| `ServerPool.RefusedAtDeadline` | src/hashkit/nc_modula.c:78-86 | a run in which requests are refused at the deadline although a server is back |
| `ServerPool.SettledSame` | src/hashkit/nc_modula.c:53-74 | clearing retry times in the first loop does not change which servers the second loop finds live |
| `Numerals.DigitsParse` | src/nc_string.c:117-119 | the digits of a number parse back to it in bases 2 to 16 |
| `Numerals.DigitsFit` | src/nc_string.c:117-119 | a number below base^n has at most n digits |
| `Numerals.FixedParse` | src/nc_string.c:134-139 | n hexadecimal digits parse back to the number |
| `Numerals.FixedIsPadded` | src/nc_string.c:137-143 | n hexadecimal digits are zeros and the plain digits |
| `Numerals.FixedTail` | src/nc_string.c:247-250 | the last k of n hexadecimal digits are those of the number modulo 16^k |
| `Numerals.FlippedIsComplement` | src/nc_string.c:149-174 | exchanging every hexadecimal digit d for 15 - d gives 16^n - 1 minus the number |
| `SafeFormat.PutDigits` | src/nc_string.c:117-119 | the digits stand leftwards from the given place and nothing else is written |
| `SafeFormat.Utoa` | src/nc_string.c:111-121 | the text up to the NUL is the digits of the number |
| `SafeFormat.FlippedIsNegative` | src/nc_string.c:134-174 | sixteen flipped digits of -v - 1 are the two's complement of v in 64 bits |
| `SafeFormat.Itoa` | src/nc_string.c:123-176 | the text up to the NUL is the signed decimal or the two's complement hexadecimal of the number, and it fits |
| `SafeFormat.NumberParsesBack` | src/nc_string.c:213-257 | the text of every conversion stands for its argument, modulo 2^64 for a negative number in hexadecimal and 2^32 for one given as 32 bits to x |
| `SafeFormat.StripIsNarrow` | src/nc_string.c:247-250 | skipping eight of sixteen digits leaves the two's complement in 32 bits |
| `SafeFormat.RenderPlain` | src/nc_string.c:201-207 | an ordinary character stands for itself |
| `SafeFormat.RenderString` | src/nc_string.c:258-268 | %s renders the string, and "(null)" for a null pointer, and takes one argument, whatever the modifier |
| `SafeFormat.RenderConversion` | src/nc_string.c:178-257 | with no modifier, l or ll, each of d i u x p takes one argument of 32 or 64 bits, l by the size of long and p by that of a pointer, and renders its text |
| `SafeFormat.RenderDecimal` | src/nc_string.c:213-257 | %d and %i render the signed decimal numeral |
| `SafeFormat.RenderUnsigned` | src/nc_string.c:213-257 | %u renders the decimal numeral |
| `SafeFormat.RenderHex` | src/nc_string.c:213-257 | %x renders the hexadecimal numeral; of a negative number, its two's complement in 8 or 16 digits by its width |
| `SafeFormat.RenderPointer` | src/nc_string.c:213-257 | %p renders the hexadecimal numeral, whatever the modifier; of a value with the sign bit, sixteen digits |
| `SafeFormat.RenderUnknown` | src/nc_string.c:208-212 | any other conversion, such as %%, renders nothing and takes no argument |
| `SafeFormat.NumberBuffer` | src/nc_string.c:237-250 | every number's text and its NUL fit in 22 bytes |
| `SafeFormat.CopyNumber` | src/nc_string.c:252-254 | as much of the text as there is room for is copied |
| `SafeFormat.CopyText` | src/nc_string.c:264-266 | as much of a string as there is room for is copied |
| `SafeFormat.Conversion` | src/nc_string.c:208-268 | a conversion consumes its argument and appends its text as far as it fits |
| `SafeFormat.SafeVsnprintf` | src/nc_string.c:194-273 | the output is the first min(size - 1, length) characters of the rendering and a NUL, the result is their number without the NUL, and nothing behind the NUL is written |
| `Jenkins.AddBytes` | src/hashkit/nc_jenkins.c:188-199 | four shifted bytes added one by one are the little-endian word |
| `Jenkins.FallThrough` | src/hashkit/nc_jenkins.c:206-220 | the fall-through cases add what is there of a word, zeros in place of what is not |
| `Jenkins.HashBytes` | src/hashkit/nc_jenkins.c:180-229 | the byte reader gives the block-wise hash, for every length |
| `Jenkins.AddMasked` | src/hashkit/nc_jenkins.c:111-127 | a masked word adds exactly the bytes of the key in it, whatever lies behind the key |
| `Jenkins.HashWords` | src/hashkit/nc_jenkins.c:86-129 | the 32-bit reader gives the block-wise hash of the key and does not depend on bytes past its end |
| `Jenkins.AddHalves` | src/hashkit/nc_jenkins.c:147-177 | half words and single bytes of the last block add what is there of a word |
| `Jenkins.HashHalves` | src/hashkit/nc_jenkins.c:130-179 | the 16-bit reader gives the block-wise hash |
| `Jenkins.HashJenkins` | src/hashkit/nc_jenkins.c:75-230 | for every alignment and length the result is the same function of the key |
| `Jenkins.MixBack` | src/hashkit/nc_jenkins.c:36-44 | mix has an explicit inverse |
| `Jenkins.FinalBack` | src/hashkit/nc_jenkins.c:46-55 | so has final |
| `Jenkins.BlocksInjective` | src/hashkit/nc_jenkins.c:180-203 | no blocks bring two different states together |
| `Jenkins.FourScore0` | src/hashkit/nc_jenkins.c:75-230 | started from 0 instead of 13, the hash of "Four score and seven years ago" is 0x17770551, the answer of the author of the algorithm |
| `Jenkins.FourScore1` | src/hashkit/nc_jenkins.c:75-230 | started from 1, it is 0xcd628161, the second such answer |
| `Jenkins.Answer` | src/hashkit/nc_jenkins.c:75-230 | the hash of "abc" is 0x8f415600 |
| `Jenkins.EmptyAnswer` | src/hashkit/nc_jenkins.c:221 | the hash of the empty key is 0xdeadbeef + 13, without final |
| `Crc32.BitXor` | src/hashkit/nc_crc32.c:27-92 | one bit of the division is linear |
| `Crc32.EightUp` | src/hashkit/nc_crc32.c:27-92 | eight zero bits only shift the register |
| `Crc32.TableIsEight` | src/hashkit/nc_crc32.c:27-92 | each of the 256 entries of crc32tab is what eight bits of the division by 0xedb88320 make of its index |
| `Crc32.TableStep` | src/hashkit/nc_crc32.c:104-106 | one table step is eight bits of the division, for every register |
| `Crc32.UnsignedStep` | src/hashkit/nc_crc32.c:118-120 | the loop body of hash_crc32a divides one byte |
| `Crc32.SignedStep` | src/hashkit/nc_crc32.c:104-106 | the loop body of hash_crc32 does too, whatever the sign of the char |
| `Crc32.HashCrc32a` | src/hashkit/nc_crc32.c:111-123 | for every key the hash is the bit-by-bit CRC-32 of section 8 of RFC 1952 |
| `Crc32.HashCrc32` | src/hashkit/nc_crc32.c:98-109 | for every key the hash is below 0x8000 and, shifted up by 16, is that CRC-32 masked with 0x7fff0000 |
| `Crc32.FifteenIs` | src/hashkit/nc_crc32.c:108 | what is kept of a checksum is its bits 16 to 30, in place once shifted up again |
| `Crc32.CheckValue` | src/hashkit/nc_crc32.c:98-123 | the CRC-32 of "123456789" is 0xcbf43926, its check value, and what is kept of it 0x4bf4 |
| `Crc32.WindowIs` | src/hashkit/nc_crc32.c:111-123 | up to four consecutive bytes act on the register as one word |
| `Crc32.RegisterInjective` | src/hashkit/nc_crc32.c:111-123 | bytes that follow never bring two different registers together |
| `Crc32.BurstIsSeen` | src/hashkit/nc_crc32.c:111-123 | keys that differ only within four consecutive bytes have different CRC-32s |
| `Crc16.TableIsEight` | src/hashkit/nc_crc16.c:20-53 | each of the 256 entries of crc16tab is what eight bits of the division by 0x1021 make of its index |
| `Crc16.StepIs` | src/hashkit/nc_crc16.c:61-63 | the loop body divides one byte in the low half and moves the top byte of the remainder up, whatever the sign of the char |
| `Crc16.HashCrc16` | src/hashkit/nc_crc16.c:55-66 | the low 16 bits are the bit-by-bit CRC of the key; the unmasked upper bytes are the top bytes of the CRCs of the key without its last byte and without its last two |
| `Crc16.CheckValue` | src/hashkit/nc_crc16.c:55-66 | the CRC of "123456789" is 0x31c3, its check value, and the whole unmasked register 0x869031c3 |
| `Crc16.TwoBytes` | src/hashkit/nc_crc16.c:55-66 | two consecutive bytes act on the register as one word |
| `Crc16.BurstIsSeen` | src/hashkit/nc_crc16.c:55-66 | keys that differ only within two consecutive bytes have different CRCs, and so different hashes |
| `Bytewise.RunKeepsApart` | src/hashkit/nc_fnv.c:31-34 | if every step can be undone, no bytes bring two different states together |
| `Bytewise.OneByteDiffers` | src/hashkit/nc_fnv.c:31-34 | if steps can be undone and tell bytes apart, keys that differ in exactly one byte lead to different states |
| `Fnv.Fnv1Keeps` | src/hashkit/nc_fnv.c:60-64 | the FNV-1 step can be undone and tells signed chars apart |
| `Fnv.Fnv1aKeeps` | src/hashkit/nc_fnv.c:75-79 | the FNV-1a step too |
| `Fnv.Fnv1LowKeeps` | src/hashkit/nc_fnv.c:31-34 | the low half of the 64-bit FNV-1 step too |
| `Fnv.Fnv1aLowKeeps` | src/hashkit/nc_fnv.c:45-49 | the truncated 64-bit FNV-1a step too |
| `Fnv.OneByteNeverCollides` | src/hashkit/nc_fnv.c:25-82 | in all four hashes keys that differ in exactly one byte never collide |
| `Fnv.StepTruncates` | src/hashkit/nc_fnv.c:31-34 | the low half of the 64-bit step depends only on the low half of the hash |
| `Fnv.HashFnv1_64` | src/hashkit/nc_fnv.c:25-37 | the truncated 64-bit loop is the 32-bit loop with prime 0x1b3 and start 0x84222325 |
| `Fnv.HashFnv1a_64` | src/hashkit/nc_fnv.c:39-52 | the loop computes the FNV-1a state with that prime and start, chars being signed |
| `Fnv.HashFnv1_32` | src/hashkit/nc_fnv.c:54-67 | the loop computes the FNV-1 state |
| `Fnv.HashFnv1a_32` | src/hashkit/nc_fnv.c:69-82 | the loop computes the FNV-1a state |
| `Fnv.Hash32Answer` | src/hashkit/nc_fnv.c:54-67 | the hash of "foobar" is 0x31f0b262, as published, and with a negative char after it 0x00172fb9 |
| `Fnv.Hash32aAnswer` | src/hashkit/nc_fnv.c:69-82 | the hash of "foobar" is 0xbf9cf968, as published, and with a negative char after it 0xf2e35fb5 |
| `Fnv.Hash64Answer` | src/hashkit/nc_fnv.c:25-37 | the hash of "foobar" is 0xa4dda9c2, and with a negative char after it 0xdb588b59 |
| `Fnv.Hash64aAnswer` | src/hashkit/nc_fnv.c:39-52 | the hash of "foobar" is 0xf73967e8, and with a negative char after it 0xe9746f15 |
| `OneAtATime.MixInjective` | src/hashkit/nc_one_at_a_time.c:43-44 | the shift-and-add and shift-and-xor steps of a byte are undone by explicit inverses |
| `OneAtATime.FinishInjective` | src/hashkit/nc_one_at_a_time.c:46-48 | so are the final ones |
| `OneAtATime.StepKeeps` | src/hashkit/nc_one_at_a_time.c:41-44 | the step of a byte can be undone and tells signed chars apart |
| `OneAtATime.OneByteNeverCollides` | src/hashkit/nc_one_at_a_time.c:34-51 | keys that differ in exactly one byte never collide |
| `OneAtATime.HashOneAtATime` | src/hashkit/nc_one_at_a_time.c:34-51 | the loop and the final steps compute that hash |
| `OneAtATime.Answer` | src/hashkit/nc_one_at_a_time.c:34-51 | the hash of "a" is 0xca2e9442, as published, and with a negative char after it 0x2e236ee7 |
| `Murmur.BlockInjective` | src/hashkit/nc_murmur.c:59-66 | a block's step can be undone and tells blocks apart |
| `Murmur.TailInjective` | src/hashkit/nc_murmur.c:74-87 | the tail's step can be undone |
| `Murmur.TailSeparates` | src/hashkit/nc_murmur.c:74-87 | and tells tails of one length apart |
| `Murmur.FinishInjective` | src/hashkit/nc_murmur.c:94-96 | the final mix is undone by explicit inverses |
| `Murmur.OnePlaceNeverCollides` | src/hashkit/nc_murmur.c:37-99 | keys of one length that differ only in one 4-byte block, or only in the tail, never collide |
| `Murmur.HashMurmur` | src/hashkit/nc_murmur.c:37-99 | loop, fall-through tail and final mix compute that hash |
| `Murmur.SeedWraps` | src/hashkit/nc_murmur.c:46-52 | the seed depends only on the length modulo 2^32 |
| `Murmur.Answer` | src/hashkit/nc_murmur.c:37-99 | the hash of "abcdef" and a byte 0xff, one block and a tail, is 0x02840577 |

## Left out

- RbTree.Tree.Insert: a client that writes the key of a linked node, or links one node into two trees, is outside the contract, as it is in the source.
- RbTree.Tree.NodeMin: the bound of 2*log2(n+1) steps is stated as 2^steps <= (n+1)^2, and so it is for RbTree.Tree.FindSlot and RbTree.Tree.PathBound; RbTree.LogarithmicIs gives it without the square.
- Md5.Context.Update: one call's size is below 2^64 and MD5_u32plus has 32 bits; the sine table is given by the constants that RFC 1321 prints, not by the sine; the loads for machines that do not tolerate unaligned access are not modelled apart.
- Kqueue.EventBase.Flush: the answers of kevent() it allows are more than the kernels give, which return the errors alone when a change failed; deletes fail only for closed or unregistered descriptors; the timeout is not modelled.
- Kqueue.EventBase.Dispatch: event_wait is split where it calls back, so that a callback is any sequence of the other operations; the callback is always set.
- Kqueue.EventBase.AddConn: the change list has room for both changes, which the source asserts; what makes the list long enough is not modelled.
- Kqueue.EventBase.DelConn: the connection's read filter is on and the change list has room, which the source asserts in the calls it makes.
- Kqueue.EventBase.CoreClose: the current connection's own changes have not failed; where one has, DelConn states what is left.
- ServerPool.Pool.ModulaUpdate: the live weights plus 10 are below 2^32; the clock is a parameter, negative when it fails, and so is whether memory is to be had; a pool without live servers has a table from before, as the source asserts.
- ServerPool.Pool.RandomUpdate: the same, with the number of live servers for the weights; srandom and random are left to a parameter of RandomDispatch.
- ServerPool.Pool.PoolUpdate: server_pool_run is modelled for the modula distribution, and between updates the retry times stay as they are: src/nc_server.c updates the pool whenever it ejects a server, and that server_ok clears the retry time of one that answers is left out.
- SafeFormat.Itoa: INT64_MIN, whose negation overflows, is excluded.
- SafeFormat.SafeVsnprintf: a format that ends in a bare %, which makes the loop step past the NUL, and arguments that are missing or of the wrong type are excluded; the size is at least 1.
- Jenkins.HashJenkins: little-endian machines only; the memory from the key's start on is whole words.
- Murmur.HashMurmur: little-endian machines only.
- Crc32.HashCrc32: nothing is said about bursts, since the fifteen bits that are kept do not tell all of them apart.
- The ketama distribution: its points are placed with floating point arithmetic.
- hash_hsieh: its steps are not injective and there is no simpler definition to compare it with.
- event_base_destroy, event_loop_stats, and the epoll and event port bases: system call plumbing around the same ideas.
- The protocol parsers, message queues, connection handling, statistics, configuration and logging.
- string_init, string_deinit, string_duplicate, string_copy, string_compare: thin wrappers.
