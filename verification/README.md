# Verified models of the parameter server's transports

The repository is a parameter server with several transports, and a QUIC stack beside it.
This project models the parts whose correctness is hardest to see and proves them, one module
for each piece:

- `LlrbTree`, `RedBlackTree`: the left-leaning red-black tree, first as a value and then on nodes
  that are changed in place.  The method on nodes is shown to do what the function on values does,
  and the function is shown to keep order, balance and sizes and to act as a plain map.
- `SplayModel`, `SplayTree`, `SplayCost`: the splay tree with parent pointers, by the same plan.  A
  node in its tree is a subtree in a context, so that a splay step is a function on such pairs.
  The rounds of all splays of a tree object together are shown to be logarithmic for each call.
- `Mempool`, `RdmaPools`: the memory pool and the index pool of the RDMA transport.
- `Rendezvous`, `RendezvousProgress`, `RendezvousDepth`: its START / REPLY / WRITE protocol, as a
  state machine over all nodes at once; posting, landing, handling and completing an operation are
  separate events.  Every run is safe until a check of the code fails and bounded in its events,
  and with enough receive contexts it stops only when all is delivered.
- `RendezvousBlocks`: a delivered buffer is kept for as long as a segment of it is held.
- `RendezvousOrder`, `RendezvousLimits`, `RendezvousTurns`, `RendezvousBuilt`: the same when one
  thread of each node handles what it has received in order, as the code does.  Then no check
  fails exactly if a node has a slot for each write context towards it; with the depths of the
  code, exactly if it has at most four peers.
- `TrackerTopology`, `TrackerStart`: the tree and the ring the tracker builds and relabels, and the
  protocol by which workers start and connect.
- `SackList`: the list of received packet ranges.
- `Resender`, `ResenderNetwork`: resending on timeout and dropping duplicates, on one node and over
  a network that loses, repeats and reorders.
- `PacketLists`, `PluginSlots`, `FairReserve`, `FrameWriter`: the sender's packet lists and byte count, the
  reservation of room for plugin frames, and the writing of frames.
- `BlockPool`, `MemCopy`: the pool of equal blocks and the copying by words that plugins use.
- `Varint`, `StreamFrame`: variable-length integers and the splitting of STREAM frames.
- `TicketCodec`, `TicketStore`: session tickets as bytes, and the pruned cache of them.
- `NewReno`: the congestion window.
- `Options`, `Collections`, `Powers`: what several of these need.

`dafny verify dfyconfig.toml` checks everything.

What the surroundings decide is an input: the address of new memory, the time, the answer of a
plugin, which packet the network lets through, in which order a set or a dictionary is walked.
Integers are unbounded except where a width matters and is then written out: the parts of a
message key, lengths that pass a 32-bit variable, the 62 bits of an encoded integer, the validity
of a ticket and the times of the congestion window.  Memory asked of the system is always granted; a
pool that runs empty is modelled.

Some things the code does are not what one would expect, and are stated as they are:

- A ticket with nothing in it loses its time when it is read back (`TicketCodec.TicketRoundTrip`).
- Splitting a STREAM frame of length 0 takes what follows it for its data
  (`StreamFrame.DataLengthRight`).
- An integer from 2^62 on is encoded without an error, and comes back as its lowest 62 bits
  (`Varint.RoundTrip`).
- Message keys collide for node ids 256 apart, and for all ids once a timestamp reaches 2^30
  (`Resender.KeysEqual`); one of two such messages can then be lost (`ResenderNetwork.TwinsLose`).
- The region of an address is looked up wrongly if another region ends where it is
  (`Mempool.Addr2MrRight`).
- Segments of 2^32 bytes or more are not cut out of a message as they were put in
  (`Rendezvous.SlicedBack`).
- The address pool can run out of indices exactly if a node has fewer slots than there are write
  contexts towards it, which with 128 write contexts for each peer and 512 slots means five peers or
  more (`RendezvousLimits.SafeExactly`, `RendezvousBuilt.FourPeers`).
- A request above 2^63 bytes can keep the memory pool doubling for ever
  (`Mempool.DoublingNeverEnds`).
- A data message with four segments that are not empty cannot be written
  (`RendezvousLimits.ScatterTooLong`).
- The second frame of a split can overrun its buffer although the size test passes
  (`StreamFrame.SecondOverruns`).

## Model

| member | source | states |
|---|---|---|
| `LlrbTree.BalanceRepairs` | 3rdparty/quic/picoquic/red_black_tree.c:271-289 | a node whose children are valid but which may lean right or have two reds in a row on the left becomes a valid left-leaning tree of the same black height; it is red only if the node was, or had two red children |
| `LlrbTree.MoveRedLeftShape` | 3rdparty/quic/picoquic/red_black_tree.c:228-247 | under a red node whose left child is a 2-node, the left child gets a red to spare, the rest stays balanced, and there is less below on the left |
| `LlrbTree.MoveRedRightShape` | 3rdparty/quic/picoquic/red_black_tree.c:251-268 | the mirror image on the right, with the key to delete still on the right |
| `LlrbTree.NodeDeleteMin` | 3rdparty/quic/picoquic/red_black_tree.c:492-525 | deleting the least key keeps the tree valid and its black height, and does not make a black root red |
| `LlrbTree.NodeDeleteMinModel` | 3rdparty/quic/picoquic/red_black_tree.c:492-525 | it removes exactly the least key and keeps the order |
| `LlrbTree.NodeDeleteMinSized` | 3rdparty/quic/picoquic/red_black_tree.c:492-525 | all subtree sizes are exact again |
| `LlrbTree.NodeDelete` | 3rdparty/quic/picoquic/red_black_tree.c:642-687 | deleting any present key keeps the tree valid and its black height, on every branch of the descent |
| `LlrbTree.NodeDeleteModel` | 3rdparty/quic/picoquic/red_black_tree.c:642-687 | it removes exactly that key, keeps all other pairs, and keeps the order |
| `LlrbTree.NodeDeleteSized` | 3rdparty/quic/picoquic/red_black_tree.c:642-687 | all subtree sizes are exact again |
| `LlrbTree.DeleteAtOrRight` | 3rdparty/quic/picoquic/red_black_tree.c:664-686 | the half of the descent for keys at the node or to its right, after the rotation that leans a red link right |
| `LlrbTree.DeleteAtOrRightModel` | 3rdparty/quic/picoquic/red_black_tree.c:664-686 | that half removes exactly the key |
| `LlrbTree.RemoveRight` | 3rdparty/quic/picoquic/red_black_tree.c:675-684 | below the move of a red to the right: the successor replaces a node deleted in the middle, or the descent goes on; the right side stays valid and the left is untouched |
| `LlrbTree.RemoveRightModel` | 3rdparty/quic/picoquic/red_black_tree.c:675-684 | and exactly the key is gone |
| `LlrbTree.NodePutModel` | 3rdparty/quic/picoquic/red_black_tree.c:308-345 | inserting maps the key to the value, keeps all other pairs and the order |
| `LlrbTree.NodePutShape` | 3rdparty/quic/picoquic/red_black_tree.c:308-345 | inserting keeps the black height and leaves at most one red-red pair, at the top and only below a red root |
| `LlrbTree.NodePutSized` | 3rdparty/quic/picoquic/red_black_tree.c:308-345 | inserting keeps all subtree sizes exact |
| `LlrbTree.GetAgrees` | 3rdparty/quic/picoquic/red_black_tree.c:107-124 | lookup in an ordered tree is lookup in its map |
| `LlrbTree.MinIsLeast` | 3rdparty/quic/picoquic/red_black_tree.c:375-387 | the leftmost entry is in the map and no key is less |
| `LlrbTree.SizeIsCardinality` | 3rdparty/quic/picoquic/red_black_tree.c:271-289 | the stored size of an ordered tree is the number of its keys |
| `LlrbTree.DepthByBlackHeight` | 3rdparty/quic/picoquic/red_black_tree.c:271-289 | a valid tree is at most twice as deep as its black height, plus one for a red root, and has at least 2^blackHeight - 1 nodes |
| `LlrbTree.DepthBound` | 3rdparty/quic/picoquic/red_black_tree.h:19 | half the depth, rounded up, is at most log2(n + 1) for n keys, so the depth is at most 2 log2(n + 1) |
| `LlrbTree.DepthLimit` | 3rdparty/quic/picoquic/red_black_tree.h:19 | fewer than 2^35 keys stay within the declared depth limit of 70 |
| `LlrbTree.PutCorrect` | 3rdparty/quic/picoquic/red_black_tree.c:347-358 | rbt_put keeps a tree well formed (ordered, left-leaning, balanced, sized, black root) and updates its map |
| `LlrbTree.DeleteCorrect` | 3rdparty/quic/picoquic/red_black_tree.c:782-802 | rbt_delete keeps a tree well formed and removes exactly the key, also when it is absent |
| `LlrbTree.DeleteMinCorrect` | 3rdparty/quic/picoquic/red_black_tree.c:532-554 | rbt_delete_min keeps a tree well formed, and removes a key that is least, also from the empty tree |
| `LlrbTree.RunAgrees` | 3rdparty/quic/picoquic/red_black_tree.c:107-802 | after every run of put, delete and delete-min from the empty tree, lookup, minimum and size agree with a plain map |
| `RedBlackTree.RotateRightNode` | 3rdparty/quic/picoquic/red_black_tree.c:153-175 | the rotation on nodes in place gives a heap tree that is exactly the rotated value tree, with the same nodes |
| `RedBlackTree.RotateLeftNode` | 3rdparty/quic/picoquic/red_black_tree.c:178-200 | the mirror image |
| `RedBlackTree.FlipColorsNode` | 3rdparty/quic/picoquic/red_black_tree.c:203-224 | the colour flip on nodes is the colour flip on the value tree |
| `RedBlackTree.MoveRedLeftNode` | 3rdparty/quic/picoquic/red_black_tree.c:228-247 | on nodes, exactly what the value tree does |
| `RedBlackTree.MoveRedRightNode` | 3rdparty/quic/picoquic/red_black_tree.c:251-268 | on nodes, exactly what the value tree does |
| `RedBlackTree.BalanceNode` | 3rdparty/quic/picoquic/red_black_tree.c:271-289 | on nodes, exactly what the value tree does, with the same nodes |
| `RedBlackTree.NodePutNode` | 3rdparty/quic/picoquic/red_black_tree.c:308-345 | the recursive insertion on nodes is the insertion on the value tree; at most one node is new |
| `RedBlackTree.NodeDeleteMinNode` | 3rdparty/quic/picoquic/red_black_tree.c:492-525 | the recursive delete-min on nodes is that on the value tree, and returns the least entry |
| `RedBlackTree.NodeMinNode` | 3rdparty/quic/picoquic/red_black_tree.c:375-387 | the loop to the left finds the least entry |
| `RedBlackTree.NodeDeleteNode` | 3rdparty/quic/picoquic/red_black_tree.c:642-687 | the recursive deletion on nodes is that on the value tree, and uses no new nodes |
| `RedBlackTree.RbtTree.constructor` | 3rdparty/quic/picoquic/red_black_tree.c:16-19 | rbt_init: the empty map |
| `RedBlackTree.RbtTree.Put` | 3rdparty/quic/picoquic/red_black_tree.c:347-358 | the contents get the pair; the tree stays valid |
| `RedBlackTree.RbtTree.Delete` | 3rdparty/quic/picoquic/red_black_tree.c:782-802 | the contents lose the key, and nothing else; the tree stays valid |
| `RedBlackTree.RbtTree.DeleteAndGetMin` | 3rdparty/quic/picoquic/red_black_tree.c:532-554 | returns the pair of the least key and removes exactly that, or says that there is none |
| `RedBlackTree.RbtTree.Get` | 3rdparty/quic/picoquic/red_black_tree.c:107-124 | found exactly if the key is in the contents, with its value |
| `RedBlackTree.RbtTree.MinEntry` | 3rdparty/quic/picoquic/red_black_tree.c:394-409 | the pair of the least key, or none if the contents are empty |
| `RedBlackTree.RbtTree.Size` | 3rdparty/quic/picoquic/red_black_tree.c:69-77 | the number of keys in the contents |
| `SplayModel.RotateInorder` | 3rdparty/quic/picoquic/picosplay.c:281-297 | a rotation keeps the in-order sequence |
| `SplayModel.StepSequence` | 3rdparty/quic/picoquic/picosplay.c:40-78 | a zig, zig-zig or zig-zag step keeps the in-order sequence of the whole tree |
| `SplayModel.SplaySequence` | 3rdparty/quic/picoquic/picosplay.c:40-57 | splaying any node keeps the in-order sequence of the whole tree |
| `SplayModel.SplaySinks` | 3rdparty/quic/picoquic/picosplay.c:40-57 | a node at depth d below the splayed one ends up at depth at most d plus the number of steps |
| `SplayModel.PathHalved` | 3rdparty/quic/picoquic/picosplay.c:40-57 | a node at depth d on the path ends up at depth at most 2 + (d + 1) / 2: the access path is halved |
| `SplayCost.RoundPays` | 3rdparty/quic/picoquic/picosplay.c:40-78 | each round, in all its cases, is paid for by the potential it frees and three times the rank the node gains; the single rotation at the top costs one more |
| `SplayCost.SplayPays` | 3rdparty/quic/picoquic/picosplay.c:40-57 | so a splay takes at most as many rounds as potential freed, three times the rank gained, and one |
| `SplayCost.OuterGrows` | 3rdparty/quic/picoquic/picosplay.c:113-133 | linking a new node in raises the potential by at most a logarithm, however long its path |
| `SplayCost.DeleteRootFrees` | 3rdparty/quic/picoquic/picosplay.c:199-219 | deleting the root does not raise the potential |
| `SplayCost.AmortisedLogarithmic` | 3rdparty/quic/picoquic/picosplay.c:40-222 | from the empty tree, and with never more than n nodes, m operations that splay take at most m * (4 * log2(n) + 1) rounds together |
| `SplayCost.ChargedBalances` | 3rdparty/quic/picoquic/picosplay.c:40-222 | the account of calls, rounds and most nodes keeps to that bound with every operation |
| `SplayModel.DeleteRootInorder` | 3rdparty/quic/picoquic/picosplay.c:195-222 | deleting the root keeps the in-order sequence of all other nodes |
| `SplayTree.MarkGp` | 3rdparty/quic/picoquic/picosplay.c:299-310 | the parent pointers of the child and the link of the grandparent agree again after a rotation |
| `SplayTree.RotateNode` | 3rdparty/quic/picoquic/picosplay.c:281-297 | the rotation with parent pointers is the rotation of the tree in its context; every child and parent link is consistent |
| `SplayTree.ZigZig` | 3rdparty/quic/picoquic/picosplay.c:67-70 | two rotations, first of the parent, are the zig-zig step |
| `SplayTree.ZigZag` | 3rdparty/quic/picoquic/picosplay.c:75-78 | two rotations of the node are the zig-zag step |
| `SplayTree.SplayNodeUp` | 3rdparty/quic/picoquic/picosplay.c:40-57 | the loop ends with the node at the root, as the splay of the value tree, over the same nodes and with consistent links, after as many rounds as the value tree needs |
| `SplayTree.SplayToRoot` | 3rdparty/quic/picoquic/picosplay.c:40-57 | the node becomes the root and the in-order sequence stays |
| `SplayTree.Leftmost` | 3rdparty/quic/picoquic/picosplay.c:312-319 | the loop to the left finds the first node of the in-order sequence |
| `SplayTree.Next` | 3rdparty/quic/picoquic/picosplay.c:242-248 | the first node in order after the given one within its subtree and context |
| `SplayTree.DeleteRootNode` | 3rdparty/quic/picoquic/picosplay.c:195-222 | unlinking the root and joining its subtrees by pointers is the deletion of the root of the value tree; exactly that node is gone |
| `SplayTree.PicoSplay.constructor` | 3rdparty/quic/picoquic/picosplay.c:81-88 | the empty sequence |
| `SplayTree.PicoSplay.Insert` | 3rdparty/quic/picoquic/picosplay.c:102-138 | exactly one new node, in sorted place behind all that compare not greater, and at the root; the rounds of the splay are charged, and all calls so far stay within the amortised bound |
| `SplayTree.PicoSplay.Find` | 3rdparty/quic/picoquic/picosplay.c:141-162 | null exactly if nothing compares equal; else a node that does, moved to the root, with the sequence unchanged and the rounds charged |
| `SplayTree.PicoSplay.FindPrevious` | 3rdparty/quic/picoquic/picosplay.c:165-186 | a node that compares not greater, and the last such one when it compares less; null exactly if all compare greater |
| `SplayTree.PicoSplay.DeleteHint` | 3rdparty/quic/picoquic/picosplay.c:195-222 | exactly the given node leaves the sequence, and the rounds are charged; null does nothing |
| `SplayTree.PicoSplay.Successor` | 3rdparty/quic/picoquic/picosplay.c:242-248 | the node behind the given one in the sequence, or null at its end |
| `Mempool.AlignCeil` | src/ibverbs_van.h:75-83 | the least multiple of 8 not below the size |
| `Mempool.AlignWraps` | src/ibverbs_van.h:75-83 | on size_t, rounding up is right exactly for sizes up to 2^64 - 8 |
| `Mempool.DoublingFits` | src/ibverbs_van.h:130-133 | on size_t the doubling ends with the size it should exactly if that is below 2^64 |
| `Mempool.HalfFits` | src/ibverbs_van.h:130-133 | which it is for requests up to 2^63 |
| `Mempool.DoublingNeverEnds` | src/ibverbs_van.h:130-133 | for a larger request, a total that is a power of two is doubled to 0 and the loop never ends |
| `Mempool.EmptyNeverEnds` | src/ibverbs_van.h:130-133 | nor does it end for a pool that was given no memory at first |
| `Mempool.TilesMeans` | src/ibverbs_van.h:86-182 | free and used blocks that tile the regions do not overlap each other, and cover a byte exactly if a region does |
| `Mempool.FirstFitIsBest` | src/ibverbs_van.h:126-126 | in the list ordered by size, lower_bound finds a smallest block that is large enough |
| `Mempool.EmplaceKeeps` | src/ibverbs_van.h:199-199 | a multimap stays ordered by size, with exactly one entry more |
| `Mempool.CarveTiles` | src/ibverbs_van.h:151-162 | taking bytes from the front of a free block keeps the tiling and the sum of all sizes |
| `Mempool.FreeTiles` | src/ibverbs_van.h:168-182 | giving a used block back keeps the tiling and the sum of all sizes |
| `Mempool.GrowKeeps` | src/ibverbs_van.h:128-146 | a new region that overlaps none keeps everything that holds between calls, and the total has at least doubled |
| `Mempool.TakeKeeps` | src/ibverbs_van.h:148-165 | taking a block keeps everything that holds between calls, and its address was not in use |
| `Mempool.FreeKeeps` | src/ibverbs_van.h:168-182 | freeing a block keeps everything that holds between calls |
| `Mempool.LiveBlocksApart` | src/ibverbs_van.h:114-182 | two live blocks do not overlap and lie within registered regions |
| `Mempool.SimpleMempool.constructor` | src/ibverbs_van.h:89-100 | one region, all of it free |
| `Mempool.SimpleMempool.Alloc` | src/ibverbs_van.h:114-165 | null for size 0; else an aligned, non-null address that was not in use, the best fit carved up, and a new region, at least as large as all before, only if nothing fits; the pool stays tiled, aligned, with the sizes adding up and at least doubled with each region |
| `Mempool.SimpleMempool.Grow` | src/ibverbs_van.h:128-146 | the loop that doubles finds the size of the new region, which then holds the first fit |
| `Mempool.SimpleMempool.Take` | src/ibverbs_van.h:148-165 | the best fit is carved up; the check that the address is not in use cannot fail |
| `Mempool.SimpleMempool.Free` | src/ibverbs_van.h:168-182 | exactly that block is free again; null is ignored |
| `Mempool.Addr2MrRight` | src/ibverbs_van.h:209-213 | the lookup finds the region of an address exactly if no region ends at that address |
| `Mempool.Addr2MrWrong` | src/ibverbs_van.h:209-213 | two regions side by side, and an address for which the lookup finds the wrong one |
| `RdmaPools.AddressPool.constructor` | src/ibverbs_van.h:311-317 | all 512 indices are free |
| `RdmaPools.AddressPool.StoreAddress` | src/ibverbs_van.h:328-336 | the index was free, now stands for the pointer, and nothing else changes; first freed is first reused |
| `RdmaPools.AddressPool.GetAddressAndRelease` | src/ibverbs_van.h:319-326 | returns what was stored under the index, which is free again |
| `RdmaPools.AddressPool.Conserved` | src/ibverbs_van.h:309-344 | free and used indices add up to 512 |
| `RdmaPools.Block.Release` | src/ibverbs_van.h:216-237 | the buffer goes back to the pool with the last release and with no other |
| `Rendezvous.SlicedBack` | src/ibverbs_van.h:728-769 | cutting a message by its lengths gives back the segments exactly if each is shorter than 2^32 bytes, since lengths pass a 32-bit variable |
| `Rendezvous.GatheredSame` | src/ibverbs_van.h:667-684 | leaving empty segments out of the scatter list does not change the bytes sent |
| `Rendezvous.InitInv` | src/ibverbs_van.h:633-967 | the state with all contexts and slots free is in order, whatever contexts and slots there are |
| `Rendezvous.ChecksHold` | src/ibverbs_van.h:828-967 | in every state in order, the checks of the code fail exactly for a message without metadata or with more than four segments, for a START that finds no index left, and for a message whose scatter list is too long; pointers, filled slots and frees are always right |
| `Rendezvous.SendKeeps` | src/ibverbs_van.h:633-726 | SendMsg keeps the order: two contexts taken, a message buffer and its inline bytes, a START posted |
| `Rendezvous.LandKeeps` | src/ibverbs_van.h:705-724 | a START or REPLY reaching a posted receive keeps the order |
| `Rendezvous.HandleStartKeeps` | src/ibverbs_van.h:849-906 | handling a START keeps the order, if an index is left: buffer, slot and reply context taken, REPLY posted, receive reposted |
| `Rendezvous.HandleReplyKeeps` | src/ibverbs_van.h:908-967 | handling a REPLY keeps the order, if the scatter list fits: the reserved write context carries the WRITE |
| `Rendezvous.LandWriteKeeps` | src/ibverbs_van.h:916-961 | the WRITE landing fills the remote buffer with exactly the bytes of the message, whose inline bytes and segments are below 2^32 bytes each, and keeps the order |
| `Rendezvous.HandleWriteKeeps` | src/ibverbs_van.h:842-848 | the slot of the immediate value is the slot of the message; it is freed and the buffer queued |
| `Rendezvous.CompleteKeeps` | src/ibverbs_van.h:791-841 | completions free their context; that of a WRITE also frees the message buffer and its inline bytes, once |
| `Rendezvous.RecvKeeps` | src/ibverbs_van.h:728-769 | RecvMsg keeps the order: metadata and segments by their lengths, and the buffer freed or shared among the segments; how long it is then kept is RendezvousBlocks.KeptForTheRest |
| `Rendezvous.ReleaseKeeps` | src/ibverbs_van.h:226-231 | dropping a segment keeps the order; which drop frees the buffer is RendezvousBlocks.FreedByLastDrop |
| `Rendezvous.StepKeeps` | src/ibverbs_van.h:633-967 | whatever the event, the state stays in order if no check fails |
| `Rendezvous.RunsAreSafe` | src/ibverbs_van.h:633-967 | every state of every run is in order as long as no check has failed, for any number of nodes, messages and interleavings |
| `Rendezvous.DeliveredOnce` | src/ibverbs_van.h:728-769 | no message is delivered twice |
| `Rendezvous.DeliveredAsSent` | src/ibverbs_van.h:728-769 | a message is delivered to the node it was sent to, with its metadata, and with its segments exactly if each is shorter than 2^32 bytes |
| `Rendezvous.Exclusive` | src/ibverbs_van.h:791-808 | each context is free or held, each slot free or filled, each block has one owner |
| `Rendezvous.NothingLost` | src/ibverbs_van.h:633-967 | once nothing is under way, every message was delivered, all contexts and slots are free, and all memory was freed |
| `RendezvousProgress.StepLowers` | src/ibverbs_van.h:633-967 | a send raises the weight of what is under way by 14, and every other event lowers it |
| `RendezvousProgress.RunsAreBounded` | src/ibverbs_van.h:633-967 | a run takes at most 15 events for each message sent, however they interleave |
| `RendezvousBlocks.KeptForTheRest` | src/ibverbs_van.h:748-769 | over every run, as long as fewer segments of a delivered message were dropped than it has, its buffer is there with exactly the bytes of the message, and is counted as often as segments are left |
| `RendezvousBlocks.FreedByLastDrop` | src/ibverbs_van.h:216-237 | over every run, the drop that frees a buffer is exactly the one that makes as many drops since its delivery as the message has segments; a drop always belongs to such a delivery |
| `RendezvousDepth.KindsKeep` | src/ibverbs_van.h:791-808 | each kind of operation is held by its kind of context |
| `RendezvousDepth.RunsInOrder` | src/ibverbs_van.h:633-967 | every state of every run is in order, with each operation held by its kind of context and no context or slot lost, as long as no check has failed |
| `RendezvousDepth.NoDeadlock` | src/ibverbs_van.h:688-967 | if each end of a connection has more receive contexts than the other has write contexts, and a reply context, then where nothing but a send is possible every message was delivered and everything is free |
| `RendezvousDepth.RunsDeliver` | src/ibverbs_van.h:633-967 | so a run that cannot go on without a send has delivered everything |
| `RendezvousOrder.NewClaims` | src/ibverbs_van.h:705-724 | when a START comes, the messages with a write context towards its node are no more than there are such contexts; every START there and every filled slot whose WRITE has not come is one of them |
| `RendezvousOrder.HandleStartClaims` | src/ibverbs_van.h:849-906 | handling the oldest START fills a slot with a message that every START behind it has counted |
| `RendezvousOrder.StepOrdered` | src/ibverbs_van.h:811-967 | every event keeps that account for each START that waits, if every node handles what it has received in order |
| `RendezvousOrder.FewFilled` | src/ibverbs_van.h:328-336 | when a START is next, fewer slots of its node are filled than there are write contexts towards it |
| `RendezvousOrder.RunsOrdered` | src/ibverbs_van.h:811-967 | every state of every run in which every node handles what it has received in order keeps the account, as long as no check has failed |
| `RendezvousOrder.RunsPassChecks` | src/ibverbs_van.h:633-967 | if each node has at least as many slots as there are write contexts towards it, no check of the code fails in any such run of messages that SendMsg and the queue pair can take |
| `RendezvousLimits.Round` | src/ibverbs_van.h:633-967 | where nothing but posted WRITEs is under way, one more message goes as far as its WRITE, in order, and takes a slot and a write context and nothing else |
| `RendezvousLimits.SlotsRunOut` | src/ibverbs_van.h:328-336 | if a node has fewer slots than there are write contexts towards it, there is a run, with every node handling what it has received in order, in which all checks pass until a START finds no index left |
| `RendezvousLimits.SafeExactly` | src/ibverbs_van.h:633-967 | no check fails in any run in order exactly if every node has at least as many slots as there are write contexts towards it |
| `RendezvousLimits.ScatterTooLong` | src/ibverbs_van.h:920-960 | whatever the contexts and slots, a message that does not fit into the scatter list leads, in order, to a WRITE that cannot be posted |
| `RendezvousLimits.FourSegments` | src/ibverbs_van.h:52-53 | a data message with four segments that are not empty is one |
| `RendezvousTurns.RunsReply` | src/ibverbs_van.h:849-906 | in every run a REPLY on its way goes to the node that its message came from, as long as no check has failed |
| `RendezvousTurns.ReplyFound` | src/ibverbs_van.h:876-877 | where only a send is possible in turn, a START finds a free reply context, if each end has at least as many of them as the other has write contexts |
| `RendezvousTurns.TurnsSuffice` | src/ibverbs_van.h:811-967 | then, if only a send is possible when everything received is handled in order, only a send is possible at all |
| `RendezvousTurns.TurnsDeliver` | src/ibverbs_van.h:633-967 | so a run in order that cannot go on without a send has delivered everything |
| `RendezvousBuilt.AsBuiltIsDeep` | src/ibverbs_van.h:41-50 | the depths of the code are enough for that, for any number of peers |
| `RendezvousBuilt.WritesPerPeer` | src/ibverbs_van.h:41-50 | with these depths there are 128 write contexts towards a node for each of its peers |
| `RendezvousBuilt.FourPeers` | src/ibverbs_van.h:41-50 | with these depths and 512 slots, no check fails in any run in order exactly if no node has more than four peers |
| `RendezvousBuilt.BuiltDelivers` | src/ibverbs_van.h:633-967 | with these depths and up to four peers, a run in order fails no check, and has delivered everything when only a send is left |
| `RendezvousBuilt.StarIsSafe` | src/ibverbs_van.h:41-50 | a node with n peers, built to these depths, is safe exactly for n up to four |
| `TrackerTopology.NeighborsAreTreeLinks` | tracker/tracker.py:156-165 | the neighbours of a node are its parent and its children in the heap, within range |
| `TrackerTopology.GetTree` | tracker/tracker.py:167-173 | every node is entered with its neighbours and its parent |
| `TrackerTopology.FindShareRing` | tracker/tracker.py:175-192 | for every order in which the set of children is walked, each node of the subtree is listed exactly once, the root first and one of its children last |
| `TrackerTopology.RingBelow` | tracker/tracker.py:184-191 | the loop over the children lists each node below exactly once, and ends with a child |
| `TrackerTopology.WholeTreeArranged` | tracker/tracker.py:194-199 | the list from the root is a permutation of all nodes, so the length check cannot fail |
| `TrackerTopology.GetRing` | tracker/tracker.py:194-207 | every node is linked to the ones before and after it in one permutation of all nodes |
| `TrackerTopology.RingIsOneCycle` | tracker/tracker.py:194-207 | following the ring from node 0 visits the permutation in order and returns to 0 after n steps and not before |
| `TrackerTopology.NumberAlongRing` | tracker/tracker.py:216-220 | the nodes are numbered in the order of the ring |
| `TrackerTopology.Rename` | tracker/tracker.py:225-233 | a dictionary copied to new keys, in any order, holds each entry under the new name of its key |
| `TrackerTopology.GetLinkMap` | tracker/tracker.py:209-234 | the relabelling is one to one, keeps tree neighbours and parents, and gives rank i the ring neighbours i - 1 and i + 1 modulo n |
| `TrackerStart.LinkMapsMutual` | tracker/tracker.py:156-234 | links go both ways and never to oneself |
| `TrackerStart.LinkMapsWired` | tracker/tracker.py:156-234 | two ranks are linked exactly if one is the parent of the other in the heap, under the relabelling, or they follow each other around |
| `TrackerStart.LinkMapsCharted` | tracker/tracker.py:209-234 | the tree neighbours of a rank are exactly its parent and its children in the heap, its parent entry is its parent, or -1 for the root, and its ring entry is the ranks before and after it |
| `TrackerStart.WaitsForOthers` | tracker/tracker.py:116-125 | over every order of starts, a rank that has started waits for exactly as many as those that it is linked to in tree or ring and that have not started |
| `TrackerStart.Told` | tracker/tracker.py:101-107 | of the ranks it is linked to in tree or ring, a starter is to connect to exactly those that have started and to expect exactly as many as have not |
| `TrackerStart.CountersAreRight` | tracker/tracker.py:70-125 | over every order of starts, a rank waits exactly while it has started and a neighbour has not, and for exactly those neighbours |
| `TrackerStart.LinksAreRight` | tracker/tracker.py:70-125 | over every order of starts, the links made are those from each starter to its neighbours that started before |
| `TrackerStart.EveryLinkOnce` | tracker/tracker.py:70-125 | with all started, each tree link and each ring link is made in exactly one of its two directions |
| `TrackerStart.LinkMadeByLater` | tracker/tracker.py:70-125 | a link is made from a to b exactly if b started before a and they are parent and child in the heap or next to each other in the ring |
| `TrackerStart.AllStarted` | tracker/tracker.py:287-302 | with all started nobody waits, and the links made are exactly those of tree and ring, each once |
| `TrackerStart.RabitTracker.constructor` | tracker/tracker.py:243-274 | the tracker starts with maps that link exactly parents and children under a relabelling, and ranks that follow each other modulo n; all ranks to give, and nobody waiting |
| `TrackerStart.RabitTracker.CountDown` | tracker/tracker.py:116-121 | exactly those connected to count one less, and exactly those that reach 0 are returned |
| `TrackerStart.RabitTracker.Introduce` | tracker/tracker.py:70-94 | a starter is told its rank, its parent in the heap or -1, the number of ranks, each of its tree neighbours once, and the ranks before and after it in the ring, or -1 if it is alone |
| `TrackerStart.RabitTracker.AssignAt` | tracker/tracker.py:287-293 | one round of the loop gives the next slave of the batch the next rank |
| `TrackerStart.RabitTracker.AssignRank` | tracker/tracker.py:70-125 | the starter is told to connect to exactly those of its tree and ring neighbours that have started, and to expect as many others as have not; the table of counters stays the one of the order of starts |
| `TrackerStart.RabitTracker.AssignAll` | tracker/tracker.py:287-293 | the loop gives slave i of the batch rank i, whatever the order of the batch |
| `TrackerStart.SortSorts` | tracker/tracker.py:286-286 | the sort by host gives a sorted permutation, and slaves of one host stay in order |
| `TrackerStart.RabitTracker.StartAll` | tracker/tracker.py:285-293 | after a batch, in whatever order, all ranks are given, nobody waits, and exactly the links of tree and ring are made, each once |
| `TrackerStart.RabitTracker.Accept` | tracker/tracker.py:282-293 | slaves are pending until as many are as there are ranks; then they are ranked in the order of their hosts, nobody waits, and exactly the links of tree and ring are made |
| `SackList.CanonicalUnique` | 3rdparty/quic/picoquic/sacks.c:66-175 | descending, disjoint, non-adjacent lists of the same numbers are the same list |
| `SackList.RoundCorrect` | 3rdparty/quic/picoquic/sacks.c:76-172 | one round of the loop, with all its cases of growing, inserting and merging, keeps the list canonical and the goal the same |
| `SackList.RoundsCorrect` | 3rdparty/quic/picoquic/sacks.c:66-175 | all rounds together add exactly the range, and add nothing exactly if it was all there |
| `SackList.UpdateLoop` | 3rdparty/quic/picoquic/sacks.c:76-172 | the loop on the linked list in place does what the rounds do on the list of ranges |
| `SackList.Sacks.Start` | 3rdparty/quic/picoquic/sacks.c:66-75 | the first range into the empty list |
| `SackList.Sacks.Update` | 3rdparty/quic/picoquic/sacks.c:66-175 | the list stays canonical and gets exactly the range; the result is 1 exactly if the whole range was there, and then nothing changes |
| `SackList.Sacks.Record` | 3rdparty/quic/picoquic/sacks.c:177-199 | one number; the time stamp follows the largest one exactly if this is it |
| `SackList.Sacks.Check` | 3rdparty/quic/picoquic/sacks.c:204-234 | -1 exactly if the whole range is there, which is exactly when an update returns 1 |
| `SackList.Sacks.IsReceived` | 3rdparty/quic/picoquic/sacks.c:38-59 | true exactly if the number is in a range |
| `SackList.ArrivalOrderIrrelevant` | 3rdparty/quic/picoquic/sacks.c:66-175 | two lists that were given the same numbers, in any order and any ranges, are equal |
| `Resender.KeysEqual` | src/resender.h:97-107 | exactly when two keys are equal, for any messages with a sender: the timestamps and request bits agree, and so do the truncated ids, unless the timestamp reaches the sign bit |
| `Resender.KeyParts` | src/resender.h:97-107 | for ids of 16, 8 and 8 bits and timestamps in [0, 2^30), where each of them stands in the key |
| `Resender.KeysDistinct` | src/resender.h:97-107 | for ids of 16, 8 and 8 bits and timestamps in [0, 2^30), keys are equal exactly for the same message |
| `Resender.KeysCollide` | src/resender.h:97-107 | node ids 256 apart collide, and so do any two once the timestamp is 2^30 |
| `Resender.Resender.AddOutgoing` | src/resender.h:36-48 | a message that is not an acknowledgement is buffered under its key with the time and no retries; a buffered one keeps its entry, and all others stay |
| `Resender.Resender.AddIncomming` | src/resender.h:54-85 | an acknowledgement drops exactly its entry; a message is a duplicate exactly if its key was seen, is noted, and is acknowledged to its sender; TERMINATE changes nothing and is not acknowledged |
| `Resender.Resender.Monitor` | src/resender.h:113-133 | exactly the entries that have waited longer than timeout * (1 + retries) are resent, once each, and counted once more; it fails exactly if one of them reaches the maximum |
| `ResenderNetwork.TransmitKeeps` | src/resender.h:131-132 | putting a message on the wire, first or again, keeps the network in order |
| `ResenderNetwork.AddOutKeeps` | src/resender.h:36-48 | buffering a message keeps the network in order, also after its acknowledgement came |
| `ResenderNetwork.ArriveDataKeeps` | src/resender.h:66-84 | a message arriving, for the first time or not, keeps the network in order |
| `ResenderNetwork.ArriveAckKeeps` | src/resender.h:59-65 | an acknowledgement drops an entry only if the receiver of its message has accepted it |
| `ResenderNetwork.RoundKeeps` | src/resender.h:113-133 | a round of a monitor keeps the network in order |
| `ResenderNetwork.KeyAnywhere` | src/resender.h:97-107 | sender and receiver compute the same key, also when the sender's id was not set yet |
| `ResenderNetwork.InRangeMeet` | src/resender.h:97-107 | for ids of 16, 8 and 8 bits and timestamps in [0, 2^30) two messages can be taken for each other exactly if they have the same ids, timestamp and request bit |
| `ResenderNetwork.RunsAreSafe` | src/resender.h:36-133 | every state of every run over a losing, repeating, reordering network is in order, with the keys the code computes, if no two messages with one key share their sender or their receiver |
| `ResenderNetwork.TwinsLose` | src/resender.h:36-85 | of two different messages, there is a run of these two alone after which one is neither buffered nor processed exactly if they have one key and share their sender or their receiver |
| `ResenderNetwork.ProcessedOnce` | src/resender.h:66-84 | no message is processed twice |
| `ResenderNetwork.BufferedOrProcessed` | src/resender.h:36-85 | every message added is itself still buffered at its sender or was processed by its receiver |
| `ResenderNetwork.OneRoundTripSettles` | src/resender.h:54-85 | wherever a run has got to, a buffered message can arrive, and then its acknowledgement; after these two it has been processed, is no longer buffered, and everything else still is |
| `ResenderNetwork.RetriesWaited` | src/resender.h:113-133 | in every reachable state, what was retried has waited longer than its retries times the timeout |
| `ResenderNetwork.ResentEachRound` | src/resender.h:113-133 | over every run whose monitors sleep for the timeout between rounds, a message that is still buffered has been resent in every round since it was added, or in all but one |
| `ResenderNetwork.RoundLeaves` | src/resender.h:113-133 | a round raises the retries of an entry by one exactly if it has waited longer than timeout * (1 + retries), and drops none |
| `PacketLists.PacketList.PushNewest` | 3rdparty/quic/picoquic/sender.c:829-838 | linking in at the newest end: still a doubly linked list, with the packet in front |
| `PacketLists.PacketList.AppendOldest` | 3rdparty/quic/picoquic/sender.c:912-924 | linking in at the oldest end: still a doubly linked list, with the packet at the end |
| `PacketLists.PacketList.Unlink` | 3rdparty/quic/picoquic/sender.c:872-893 | unlinking a packet anywhere in the list leaves the others linked in order |
| `PacketLists.Path.constructor` | 3rdparty/quic/picoquic/sender.c:818-842 | all lists empty, no bytes in transit |
| `PacketLists.Path.QueueForRetransmit` | 3rdparty/quic/picoquic/sender.c:818-842 | the packet is first in the list of its space, the other lists stay; the bytes in transit are the sum over all congestion-controlled packets that are out |
| `PacketLists.Path.DequeueRetransmit` | 3rdparty/quic/picoquic/sender.c:863-928 | exactly that packet leaves its list, and goes to the end of the lost list or is gone; no packet is in two lists; the bytes in transit are the sum again, and the saturating subtraction does not clip |
| `PacketLists.Path.DequeueRetransmitted` | 3rdparty/quic/picoquic/sender.c:939-972 | exactly that packet leaves the lost list; the bytes in transit stay |
| `FairReserve.GreedyFits` | 3rdparty/quic/picoquic/sender.c:2984-3007 | the blocks taken are none or stay below the budget, and the next block would not, or needs an open window |
| `FairReserve.MoveBlocks` | 3rdparty/quic/picoquic/sender.c:2984-3007 | exactly the greedy front of the queue moves, whole blocks in order, each frame with its plugin |
| `FairReserve.TaggedAt` | 3rdparty/quic/picoquic/sender.c:2990-2994 | the frames of a block are reserved in their order, each as it is but for its plugin |
| `FairReserve.ReserveMoves` | 3rdparty/quic/picoquic/sender.c:2944-3043 | for each plugin, what is reserved is the front of its one queue and then of its other, in order; the rest stays |
| `FairReserve.ReserveWithin` | 3rdparty/quic/picoquic/sender.c:2944-3043 | the bytes moved are zero or below the budget, and bytes moved and bytes left add up |
| `FairReserve.CcRoundRules` | 3rdparty/quic/picoquic/sender.c:2982-3010 | in the first round each plugin in turn gives exactly the longest front of its queue that stays below the budget, without congestion-controlled blocks once the window is full; it gives none if it has a rate and those before it, or all together while a stream has data, have used the share of the window left by the core |
| `FairReserve.NonCcRoundRules` | 3rdparty/quic/picoquic/sender.c:3013-3038 | the same for the second round and the other queue, where no share is asked for |
| `FairReserve.ReserveIsFair` | 3rdparty/quic/picoquic/sender.c:2944-3043 | both rounds obey these rules, the plugins take turns from the first on, each once, and what they gave is what was appended, in order, and what their queues lost |
| `FairReserve.Scheduler.PluginUse` | 3rdparty/quic/picoquic/sender.c:2962-2965 | the sum of what all plugins have in flight |
| `FairReserve.Scheduler.FirstPass` | 3rdparty/quic/picoquic/sender.c:2982-3010 | the round that goes once around all plugins from the first is the round of the specification |
| `FairReserve.Scheduler.SecondPass` | 3rdparty/quic/picoquic/sender.c:3013-3038 | the same for the second round |
| `FairReserve.Scheduler.FrameFairReserve` | 3rdparty/quic/picoquic/sender.c:2944-3043 | the plugins take turns, each once, from the one after the last call; in numbers of window, rate and bytes, each gives exactly what the rules of both rounds allow; what was given is appended in order and counted, and the rest stays; nothing happens without plugins |
| `FrameWriter.WriteAllSettles` | 3rdparty/quic/picoquic/sender.c:1273-1374 | each reservation taken ends up in exactly one of packet, retry queue and notices |
| `FrameWriter.PutOffOrGivenUp` | 3rdparty/quic/picoquic/sender.c:1306-1321 | exactly the plugins that ask for a retry are put off, and exactly those that fail, write nothing or claim too much are given up, both in order |
| `FrameWriter.FramesGrow` | 3rdparty/quic/picoquic/sender.c:1290-1303 | the frames of the packet are, in order, exactly those whose plugin wrote between one byte and what it reserved, each with its bytes at its place in the packet |
| `FrameWriter.WritesAll` | 3rdparty/quic/picoquic/sender.c:1255-1374 | bytes, frames, retries, notices, both flags and the result of a packet, from the answers of the plugins alone |
| `FrameWriter.Connection.FillPacket` | 3rdparty/quic/picoquic/sender.c:1255-1374 | so for the three loops in turn |
| `FrameWriter.InFlightGrows` | 3rdparty/quic/picoquic/sender.c:1290-1303 | what a plugin has in flight grows by exactly its bytes in the packet |
| `FrameWriter.OnePlace` | 3rdparty/quic/picoquic/sender.c:1255-1374 | every reservation ever made is in exactly one of a packet, refused, the retry queue and the queue of new ones, once |
| `FrameWriter.QueuedOnce` | 3rdparty/quic/picoquic/sender.c:1273-1275 | so the retry queue holds none twice, which is why the first one put off ends the loop |
| `FrameWriter.Connection.WriteSlot` | 3rdparty/quic/picoquic/sender.c:1284-1321 | a plugin that wrote between one byte and what it reserved has its bytes and its frame in the packet and its bytes in flight; one that asks for a retry is put off; any other is given up, and what it wrote is erased; nothing behind the budget is touched |
| `FrameWriter.Connection.CopyFrames` | 3rdparty/quic/picoquic/sender.c:1257-1269 | frames of split packets are copied in order while they fit, and exactly the first that does not fit ends it |
| `FrameWriter.Connection.RetryFrames` | 3rdparty/quic/picoquic/sender.c:1273-1322 | terminates even if every plugin asks to retry: each reservation is tried at most once, those put off go to the back in order |
| `FrameWriter.Connection.ReservedFrames` | 3rdparty/quic/picoquic/sender.c:1325-1374 | new reservations in order while they fit; those put off go to the retry queue |
| `FrameWriter.Connection.WriteNewFrames` | 3rdparty/quic/picoquic/sender.c:1239-1378 | all three in turn: of each queue exactly as much is taken as fits; bytes, frames, retries, notices, flags and result are those that follow from the answers alone; the packet stays within max_bytes; every reservation stays in one place and the bytes in flight stay those in packets, over every run of calls |
| `FrameWriter.Connection.Reserve` | 3rdparty/quic/picoquic/sender.c:2990-2994 | a new reservation keeps the account of all reservations |
| `FrameWriter.Connection.DequeuePacket` | 3rdparty/quic/picoquic/sender.c:844-858 | a packet acknowledged or lost takes exactly its bytes out of flight, with a notice of each of its frames; what is in flight stays the sum over the packets out |
| `FrameWriter.RemoveRegisteredPluginFrames` | 3rdparty/quic/picoquic/sender.c:844-858 | each plugin gets back exactly its bytes of the packet, and is told of each frame, the last registered first |
| `BlockPool.MemoryPool.AddressesApart` | 3rdparty/quic/picoquic/memory.c:16-22 | the two address helpers are inverse, and blocks do not overlap |
| `BlockPool.MemoryPool.constructor` | 3rdparty/quic/picoquic/memory.c:179-197 | all blocks free, no header written |
| `BlockPool.MemoryPool.Initialize` | 3rdparty/quic/picoquic/memory.c:86-91 | the chain of free blocks stays, and if it is not empty its head now has its header |
| `BlockPool.MemoryPool.MallocBlock` | 3rdparty/quic/picoquic/memory.c:72-112 | null for a request that is too large; else null exactly if all blocks are live, and otherwise a block that was not live; the chain stays acyclic and as long as num_free_blocks |
| `BlockPool.MemoryPool.FreeBlock` | 3rdparty/quic/picoquic/memory.c:120-144 | exactly that block is free, and the next to be given out |
| `BlockPool.MemoryPool.Conserved` | 3rdparty/quic/picoquic/memory.c:72-144 | free and live blocks add up |
| `MemCopy.Memcpy` | 3rdparty/quic/picoquic/memcpy.c:51-114 | for every length, alignment and overlap the destination gets the original bytes of the source, and nothing else changes |
| `MemCopy.CopyForward` | 3rdparty/quic/picoquic/memcpy.c:68-89 | leading bytes, words, trailing bytes, for a destination below the source |
| `MemCopy.CopyBackward` | 3rdparty/quic/picoquic/memcpy.c:91-110 | the same from the end, for a destination above the source |
| `MemCopy.WordsForward` | 3rdparty/quic/picoquic/memcpy.c:86-87 | the loop over words, which needs aligned addresses, copies exactly those words although source and destination may overlap |
| `MemCopy.WordsBackward` | 3rdparty/quic/picoquic/memcpy.c:107-108 | the same from the end |
| `MemCopy.CopiedAt` | 3rdparty/quic/picoquic/memcpy.c:51-114 | what a copied memory holds at each place |
| `MemCopy.Memset` | 3rdparty/quic/picoquic/memcpy.c:128-165 | exactly n bytes get the low byte of the value, and nothing else changes |
| `Varint.VarintEncode` | 3rdparty/quic/picoquic/intformat.c:62-98 | writes the encoding and nothing else, or nothing if it does not fit |
| `Varint.VarintDecode` | 3rdparty/quic/picoquic/intformat.c:108-127 | the loop reads what the encoding means, or 0 if bytes are missing |
| `Varint.EncodedLength` | 3rdparty/quic/picoquic/intformat.c:136-147 | below 2^62 the encoding is as long as picoquic_varint_len says; from there on it takes 8 bytes |
| `Varint.RoundTrip` | 3rdparty/quic/picoquic/intformat.c:62-127 | decoding an encoded 64-bit number gives its lowest 62 bits and the length written, whatever follows |
| `Varint.Shortest` | 3rdparty/quic/picoquic/intformat.c:62-147 | no encoding of a number is shorter than that of the encoder |
| `Varint.DecodeMeans` | 3rdparty/quic/picoquic/intformat.c:108-127 | the two high bits of the first byte say whether the number takes 1, 2, 4 or 8 bytes; these, read as one number with the high byte first, are the value and the two bits in front; 0 if bytes are missing |
| `StreamFrame.ParseStreamHeader` | 3rdparty/quic/picoquic/util.c:347-349 | the header parser called here, defined in frames.c at lines 737-789: a header that parses never claims more data than there is |
| `StreamFrame.FrameParses` | 3rdparty/quic/picoquic/util.c:335-399 | a frame built from a stream id, an offset, FIN and data parses as these |
| `StreamFrame.OpenFrameParses` | 3rdparty/quic/picoquic/util.c:347-349 | to that parser, a frame without a length has all that follows as its data |
| `StreamFrame.FirstTakesAll` | 3rdparty/quic/picoquic/util.c:360-368 | the first frame takes all data, or leaves no more than 1, 2 or 4 bytes of its buffer, by how long lengths are there |
| `StreamFrame.LeadFits` | 3rdparty/quic/picoquic/util.c:355-368 | the header written is never longer than the one parsed, even if that was not encoded the shortest way |
| `StreamFrame.SplitStreamFrame` | 3rdparty/quic/picoquic/util.c:335-399 | -1, with both buffers untouched, exactly if the frame does not parse or the size test fails; else the first part of the data in one frame, and the rest in another that is whole exactly if there is room for it; behind what was written both buffers stay |
| `StreamFrame.CutShort` | 3rdparty/quic/picoquic/util.c:381-393 | a second frame that there is no room for loses a number or overruns its buffer |
| `StreamFrame.WholeIsInside` | 3rdparty/quic/picoquic/util.c:381-393 | with room for all of it, the second frame stays within its buffer |
| `StreamFrame.FrameSizedBuffer` | 3rdparty/quic/picoquic/sender.c:1558-1563 | in a buffer as long as the frame was, as the caller passes it, there is room exactly if the new numbers take no more than the old header and the data of the first frame; so always if that has 16 bytes |
| `StreamFrame.SecondOverruns` | 3rdparty/quic/picoquic/util.c:355-358 | a frame of five bytes and sizes that pass the test, for which the second frame takes seven |
| `StreamFrame.SecondLosesOffset` | 3rdparty/quic/picoquic/util.c:387-388 | a second frame can stay within its buffer and lose its offset |
| `StreamFrame.FirstMeans` | 3rdparty/quic/picoquic/util.c:360-378 | the first frame has the same stream and offset and the first part of the data; it has FIN exactly if the frame had it and nothing is left |
| `StreamFrame.SecondMeans` | 3rdparty/quic/picoquic/util.c:381-393 | the second frame has the same stream, the rest of the data, and FIN exactly if the frame had it |
| `StreamFrame.OffsetRight` | 3rdparty/quic/picoquic/util.c:388-388 | the offset of a frame is read as meant exactly if it is below 2^62 |
| `StreamFrame.DataLengthRight` | 3rdparty/quic/picoquic/util.c:351-353 | the data split is the data of the frame exactly if that is not empty, or nothing follows the header |
| `StreamFrame.EmptyFrameTakesWhatFollows` | 3rdparty/quic/picoquic/util.c:351-353 | an empty frame with a byte behind it, which is split as if that byte were its data |
| `TicketCodec.SerializeTicket` | 3rdparty/quic/picoquic/ticket_store.c:59-94 | writes the bytes of the ticket, or nothing if they do not fit |
| `TicketCodec.TicketRoundTrip` | 3rdparty/quic/picoquic/ticket_store.c:59-153 | a ticket survives, with all bytes consumed, exactly if server name, protocol or body is not empty, or its time is 0 |
| `TicketCodec.EmptyTicketLosesTime` | 3rdparty/quic/picoquic/ticket_store.c:96-153 | an empty ticket comes back with time 0 |
| `TicketCodec.ParsesBigEndian` | 3rdparty/quic/plugins/helpers.h:627-630 | numbers of 2, 4 and 8 bytes are read with the high byte first |
| `TicketStore.PrunedLookup` | 3rdparty/quic/picoquic/ticket_store.c:195-207 | removing what a new ticket outdoes changes no lookup that does not find the new ticket |
| `TicketStore.LookupFinds` | 3rdparty/quic/picoquic/ticket_store.c:215-241 | what is found has the server name and the protocol asked for and is still valid; nothing is found exactly if no such ticket is there |
| `TicketStore.LookupNewest` | 3rdparty/quic/picoquic/ticket_store.c:215-241 | and all such tickets are behind it in the list |
| `TicketStore.PrunedExactly` | 3rdparty/quic/picoquic/ticket_store.c:195-207 | a ticket is removed exactly if it is for the same server and protocol and valid no longer than the new one |
| `TicketStore.ValidUntilMeans` | 3rdparty/quic/picoquic/ticket_store.c:169-176 | a ticket is valid from its issue time in milliseconds for its lifetime, at most seven days, on 64 bits |
| `TicketStore.PruningIsInvisible` | 3rdparty/quic/picoquic/ticket_store.c:155-241 | after every run, every lookup at every time finds what it would find among all tickets ever stored, newest first |
| `TicketStore.TicketList.StoreTicket` | 3rdparty/quic/picoquic/ticket_store.c:155-213 | refuses exactly what is too short or expired; else the new ticket is first and exactly those it outdoes are unlinked |
| `TicketStore.TicketList.GetTicket` | 3rdparty/quic/picoquic/ticket_store.c:215-241 | the first ticket with the name and protocol asked for that is still valid, or none if there is no such ticket |
| `NewReno.NotifiedKeeps` | 3rdparty/quic/picoquic/newreno.c:107-147 | every notification keeps the window and the threshold at or above the minimum, and the residue below the window |
| `NewReno.SlowStartGrows` | 3rdparty/quic/picoquic/newreno.c:109-118 | over every run of acknowledgements in slow start that the window had blocked, it grows by exactly the bytes acknowledged, and slow start ends exactly when the threshold is reached |
| `NewReno.NotBlockedNoGrowth` | 3rdparty/quic/picoquic/newreno.c:109-118 | in slow start, an acknowledgement behind the last packet that the window blocked changes nothing |
| `NewReno.LossHalves` | 3rdparty/quic/picoquic/newreno.c:61-84 | a loss more than a round trip after the last recovery halves the window, but not below two packets; after a timeout it is two packets and slow start begins again |
| `NewReno.HalvedOnce` | 3rdparty/quic/picoquic/newreno.c:129-136 | any number of losses within a round trip of a recovery change nothing |
| `NewReno.SpuriousTakenBack` | 3rdparty/quic/picoquic/newreno.c:137-147 | a loss found spurious within a round trip is taken back, but for the last byte of an odd window; a window below four packets comes back as four |
| `NewReno.Conserved` | 3rdparty/quic/picoquic/newreno.c:119-126 | over every run in congestion avoidance that enters no recovery, the sum of increment times window, and the residue left, are the sum of bytes times mtu, each at its time, and the residue there was |
| `NewReno.GrowthBound` | 3rdparty/quic/picoquic/newreno.c:119-126 | over such a run from window W, the window grows by at most (that sum + residue) / W |
| `NewReno.Reno.constructor` | 3rdparty/quic/picoquic/newreno.c:45-57 | the initial window is above the minimum |
| `NewReno.Reno.Enter` | 3rdparty/quic/picoquic/newreno.c:61-84 | half the window, but at least the minimum, is the threshold, and the window too unless it was a timeout |
| `NewReno.Reno.Notify` | 3rdparty/quic/picoquic/newreno.c:92-147 | each notification does what the specification says, and keeps the window and the residue in bounds |

## Left out

- Deleting the greatest key of the red-black tree: rbt_node_delete_and_get_max returns without descending into the right subtree.
- The ceiling lookup of the red-black tree, whose out-parameters are not written when the key itself is found.
- SplayCost.AmortisedLogarithmic: counts the rounds of the splay loop; a search that finds nothing and the walk to the successor in a deletion are not followed by a splay and not paid for.
- Mempool.SimpleMempool.Alloc: sizes are unbounded; where they wrap around at 64 bits is stated by AlignWraps, DoublingFits and DoublingNeverEnds.
- Mempool.SimpleMempool.constructor: the initial size is required to be positive, since doubling a total of 0 does not end (EmptyNeverEnds).
- RdmaPools.AddressPool.StoreAddress: a free index is required; the code takes one from the queue without asking, and RendezvousLimits.SafeExactly says exactly when there always is one.
- Rendezvous.RunsAreSafe: SendMsg is one event, and the order in which delivered buffers are taken from the queue is free.
- Rendezvous.LandWriteKeeps: the length of a scatter entry has 32 bits; that inline bytes or a segment of 2^32 bytes or more are cut short on sending too is not modelled.
- RendezvousOrder.RunsPassChecks: completions of sends are in no order with what is received, and may come late; a run in which they come in the order of the queue is one of those.
- ResenderNetwork.RunsAreSafe: two messages that have one key and share their sender or their receiver are excluded; TwinsLose says that it is exactly these.
- RDMA connection events, cached and remote memory keys, and threads that wait for a free context while they hold up others: an event is possible when what it needs is free.
- TrackerStart.RabitTracker.AssignRank: a starter has no good links yet and all its connections succeed at once; the loop that tries again is not modelled.
- The tracker's recovery of slaves, its print and shutdown commands, its sockets and its job launching.
- SackList.Sacks.Update: numbers are required to be below 2^62, the range of QUIC packet numbers.
- The resender's threads and locks.
- PacketLists.Path.DequeueRetransmit: the plugin frames of a packet are in FrameWriter; the notice that it was lost, and the pacing of the sender, are not modelled.
- FrameWriter.Connection.WriteNewFrames: what a plugin answers is a function of its reservation, and it writes only within the space reserved.
- StreamFrame.SplitStreamFrame: a second frame that would overrun its buffer is excluded; Inside is the exact condition, which the code leaves to the caller.
- SplayTree.PicoSplay.FindPrevious: among several entries that compare equal, which one is returned is not stated.
- NewReno.Reno.Notify: the window does not wrap around at 64 bits, and whether round-trip samples have risen too much is an input.
- The CUBIC and hystart variants, which use floating point.
- BlockPool.MemoryPool.FreeBlock: the pointer is required to be that of a live block; for others the code warns and links them in all the same. Reallocation is not modelled.
- The walks over retransmission candidates, and all other frame code of the QUIC stack.
- Reading and writing tickets in files, encryption and TLS.
- Checks for pointers outside plugin memory, failing allocation, logging, the debug variants and the plugin virtual machine.
