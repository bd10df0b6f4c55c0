# A Dafny model of Open vSwitch 2.3.0

The project models the parts of Open vSwitch that decide which flow a packet
belongs to, what is done with it, and whether a link is alive, and proves what
those parts promise. `dafny verify dfyconfig.toml` checks all of it.

* **OpenFlow classifier** (`lib/classifier.c`, `lib/tag.c`): `Words`, `Flows`,
  `PrefixTrie`, `TrieStack`, `TrieMemory`, `Tags`, `Subtables`, `SubtableLookup`,
  `PriorityCache`, `Classifier`, `ClassifierLookup`, `OpenFlowTable`.
  Tuple-space search with its four shortcuts (priority order, staged hash
  indices, prefix tries, metadata partitions) finds what a plain search over
  all rules finds, and the wildcard mask it produces is sound but for the case
  described below.
* **Megaflow table** (`datapath/flow_table.c`): `FlowInstance`, `MaskArray`,
  `MegaflowTable`. Hash chains threaded through the flows, rehashing while the
  old chains stay intact, masks with reference counts, and a cache of mask
  positions that may be stale without harm.
* **Actions** (`datapath/actions.c`, `datapath/datapath.c`): `ActionModel`,
  `ActionTrace`, `ActionExec`. What goes out, and in which order, is what the
  list prescribes; deferring the last output equals copying at every output, every
  buffer reference is released once, and loops end.
* **Netlink** (`datapath/flow_netlink.c`): `Netlink`, `FlowKeyNetlink`,
  `ActionNetlink`, `NetlinkAcceptance`, `ActionBuffer`. Keys and action lists,
  down to the bytes: what is accepted, and that it comes back.
* **BFD** (`lib/bfd.c`): `BfdSession`, `BfdObject`, `BfdPeers`. One session over
  any history, and two sessions over a network that loses, repeats, delays and
  reorders.
* **Flow statistics** (`datapath/flow.c`): `FlowStats`, a step system in which
  CPUs update and read the records in any interleaving.
* **Asynchronous append** (`lib/async-append-aio.c`, `lib/byteq.c`):
  `Arithmetic`, `ByteQueue`, `AsyncAppend`.
* **Checksums** (`lib/csum.c`): `Checksum`.

`Options` holds the option type.

Objects that the source updates in place are classes; where the update is
intricate, its effect is first described by a function on values, the class
method is proved to have that effect, and the properties are proved of the
function. Hash functions, the clock, random numbers, memory and the answers of
the operating system are parameters, so the theorems hold for all of them.

## What the source does not keep

* A mask that `classifier_lookup` produces is not always sound, against the
  contract in `lib/classifier.h:36-87`: when a subtable's mask has bits in the
  ports word and in a word after it (`dp_hash` follows the ports), a failed
  lookup may leave the later word out of the mask. `SubtableLookup.FindMatchWc`
  and `ClassifierLookup.Lookup` say for which flows this happens, both ways, for
  a subtable and for the whole classifier; `OpenFlowTable.HoleExample` is one
  such classifier and flow; `ClassifierLookup.PortsLastNoHoles` shows that masks
  that end with the ports are safe, as the source's own comment assumes.
* `trie_remove_prefix` keeps its way down in an array of 128 edges, and may need
  129. `TrieStack.EntriesExact` gives the exact condition,
  `TrieStack.StackTooSmall` a run that meets it.
* `reserve_sfa_size` doubles a buffer once, which a request longer than that
  overruns. `ActionBuffer.GrownFits` gives the exact condition,
  `ActionBuffer.GrownOverrun` an instance. `ActionBuffer.Buffer.CopyActions`
  never gets there from a buffer as long as its input.
* `csum_continue` adds an odd last byte as it is, which is RFC 1071's padding
  on a little-endian host only (`Checksum.OddIsPadded`).
* `recalc_csum16`, `recalc_csum32` and `recalc_csum128` differ from the checksum
  of the new data exactly when these are all zero (`Checksum.Recalc16Exact`,
  `Checksum.RecalcExact`).
* A key with ethertype 802.1Q and no tag is encoded in a form that the decoder
  always refuses (`FlowKeyNetlink.TruncatedRejected`); `FlowKeyNetlink.KeyRoundTrip`
  says exactly which keys come back.

## Model

| member | source | states |
|---|---|---|
| `PrefixTrie.RawGetPrefixBits` | openvswitch-2.3.0/lib/classifier.c:1960-1974 | the shifts and masks over two words yield the bits of the array from an offset on |
| `PrefixTrie.TrieGetPrefixBits` | openvswitch-2.3.0/lib/classifier.c:1981-1992 | at most 32 bits of the prefix, the rest of the word zero |
| `PrefixTrie.PrefixEqualBitsIsLcp` | openvswitch-2.3.0/lib/classifier.c:1996-2003 | counting leading zeros of an exclusive or gives the longest common prefix |
| `PrefixTrie.BranchCreateSpec` | openvswitch-2.3.0/lib/classifier.c:2032-2057 | a new branch of any length is a well-shaped trie |
| `PrefixTrie.BranchCreateCount` | openvswitch-2.3.0/lib/classifier.c:2032-2057 | it holds its prefix, and no other |
| `PrefixTrie.InsertSpec` | openvswitch-2.3.0/lib/classifier.c:2239-2280 | inserting keeps the shape (no leaf without rules) and adds one rule under exactly that prefix, splitting nodes as needed |
| `PrefixTrie.RemoveSpec` | openvswitch-2.3.0/lib/classifier.c:2293-2350 | removing finds the prefix exactly when it is held, takes away one rule and no other, and keeps the shape through pruning and merging |
| `PrefixTrie.PruneCount` | openvswitch-2.3.0/lib/classifier.c:2320-2343 | merging a node into its only child changes no count |
| `PrefixTrie.PruneSaves` | openvswitch-2.3.0/lib/classifier.c:2320-2343 | pruning frees a node exactly if the node has no rules, does not fork, and its child, if any, has room for its bits |
| `PrefixTrie.FindSpec` | openvswitch-2.3.0/lib/classifier.c:2134-2164 | a lookup gives the length of the longest held prefix of the value, and looks at no more bits than there are |
| `PrefixTrie.FindStable` | openvswitch-2.3.0/lib/classifier.c:2134-2164 | any value that shares the bits looked at has the same result |
| `PrefixTrie.FindTight` | openvswitch-2.3.0/lib/classifier.c:2134-2164 | it looks at no bit too many: beyond the match, the trie holds a string that differs from the value first in the last bit looked at |
| `PrefixTrie.LookupValue` | openvswitch-2.3.0/lib/classifier.c:2134-2164 | the loop over nodes computes that lookup |
| `PrefixTrie.RunOpsHolds` | openvswitch-2.3.0/lib/classifier.c:2232-2350 | after any sequence of insertions and removals the trie is well shaped and holds exactly the multiset of prefixes inserted less those removed |
| `TrieMemory.ReplaceRep` | openvswitch-2.3.0/lib/classifier.c:2239-2280 | in memory, rewriting the one edge at the end of a path replaces the subtrie there and nothing else, and no node comes to occur twice |
| `TrieMemory.Memory.BranchCreate` | openvswitch-2.3.0/lib/classifier.c:2032-2057 | new nodes only, that make up the branch; every node there before is as it was |
| `TrieMemory.Memory.InsertPrefix` | openvswitch-2.3.0/lib/classifier.c:2239-2280 | the walk over edge pointers leaves in memory exactly the trie that inserting into the value gives, with its nodes and no others allocated |
| `TrieMemory.Memory.SplitNode` | openvswitch-2.3.0/lib/classifier.c:2250-2268 | a new parent, the old node shortened in place, and a fork for the rest of the prefix make up the split trie |
| `TrieMemory.Memory.RemovePrefix` | openvswitch-2.3.0/lib/classifier.c:2293-2350 | the same for removal with its stack of edges: found exactly when the value has it, freed nodes are gone and none is lost; and the exact condition under which the stack takes more than the 128 entries there is room for |
| `TrieMemory.Memory.PruneUp` | openvswitch-2.3.0/lib/classifier.c:2321-2343 | the upward loop leaves what pruning each node on the path, from the bottom up, gives |
| `TrieMemory.Memory.Combine` | openvswitch-2.3.0/lib/classifier.c:2324-2337 | a node's bits move into its only child, the node is freed, and the edge above leads to the child |
| `TrieMemory.UpReplaced` | openvswitch-2.3.0/lib/classifier.c:2320-2343 | what pruning leaves does not depend on what was at the end of the path |
| `TrieMemory.StackKept` | openvswitch-2.3.0/lib/classifier.c:2337-2343 | the stacked edges stay valid through the update below them |
| `TrieStack.EntriesBelow` | openvswitch-2.3.0/lib/classifier.c:2297-2304 | below the root a removal stacks at most one edge for each bit left, and so many exactly if every node passed holds one bit |
| `TrieStack.EntriesExact` | openvswitch-2.3.0/lib/classifier.c:2297-2304 | 128 entries are too few exactly if a prefix of 128 bits is removed from a trie that has a root without bits and, along the prefix, a node for every bit; 129 are always enough |
| `TrieStack.CombFrom` | openvswitch-2.3.0/lib/classifier.c:2297-2304 | a trie is like that whenever it holds the prefixes of all shorter lengths and one that starts with the other bit |
| `TrieStack.StackTooSmall` | openvswitch-2.3.0/lib/classifier.c:2239-2350 | a run of insertions after which a removal that finds its prefix takes 129 entries |
| `Tags.TrackerAdd` | openvswitch-2.3.0/lib/tag.c:45-52 | every bit of the tag counts once more, and the tracker's tags are the bits with a count |
| `Tags.TrackerSubtract` | openvswitch-2.3.0/lib/tag.c:56-64 | a bit leaves the tags when its last tag goes |
| `Tags.SubsetIntersects` | openvswitch-2.3.0/lib/tag.h:79-86 | a tag that was added intersects the combined tags |
| `Tags.TagOnto` | openvswitch-2.3.0/lib/tag.c:28-36 | every tag of two bits is the tag of some seed |
| `Flows.PrefixLenExact` | openvswitch-2.3.0/lib/classifier.c:2187-2213 | the length found for a field is that of a mask of ones and then zeros, and 0 for any other mask |
| `Subtables.InsertIntoList` | openvswitch-2.3.0/lib/classifier.c:1888-1924 | the scan keeps identical rules in descending priority and finds the one to displace |
| `Subtables.DisplacedIsSameKey` | openvswitch-2.3.0/lib/classifier.c:1864-1928 | the displaced rule is the one rule of the subtable with the same match and priority, if there is one |
| `Subtables.InsertRule` | openvswitch-2.3.0/lib/classifier.c:1864-1928 | hashing stage by stage files the rule in every index, in the group of its full hash, and keeps its group sorted |
| `Subtables.StagedHash` | openvswitch-2.3.0/lib/classifier.c:546-565 | the hash built in stages at insertion is the hash that a lookup computes in one go |
| `Subtables.AddRuleOk` | openvswitch-2.3.0/lib/classifier.c:875-928 | all indices, the ports trie, the count and the highest priority agree with the rules after an insertion |
| `Subtables.RemoveRuleOk` | openvswitch-2.3.0/lib/classifier.c:946-1012 | and after a removal |
| `Subtables.HighestHead` | openvswitch-2.3.0/lib/classifier.c:1611-1622 | the scan over the heads finds the highest priority and how many rules have it, in whatever order the table yields them |
| `Subtables.DeleteRule` | openvswitch-2.3.0/lib/classifier.c:946-1012 | the removal's work on one subtable |
| `SubtableLookup.FindMatch` | openvswitch-2.3.0/lib/classifier.c:1734-1748 | a best match of the subtable, or none exactly when no rule matches |
| `SubtableLookup.BestUnique` | openvswitch-2.3.0/lib/classifier.c:1734-1748 | the result of a subtable is determined |
| `SubtableLookup.CheckTries` | openvswitch-2.3.0/lib/classifier.c:1650-1707 | a subtable is skipped exactly if some trie, at its turn, proves that the prefix is not there and needs no bits the subtable would not; then no rule matches any flow that agrees on the bits added, and only bits of the subtable's own mask are added, those the trie looked at |
| `SubtableLookup.TrieSkipSound` | openvswitch-2.3.0/lib/classifier.c:1678-1701 | the bits a trie lookup needed decide the miss for every flow |
| `SubtableLookup.EmptyIndexMisses` | openvswitch-2.3.0/lib/classifier.c:1778-1793 | an empty entry of a staged index excludes every flow with the same leading words |
| `SubtableLookup.SingleCandidate` | openvswitch-2.3.0/lib/classifier.c:1794-1815 | a single node left is the answer, or there is none |
| `SubtableLookup.PortsTrieDecides` | openvswitch-2.3.0/lib/classifier.c:1819-1843 | a flow that a rule matches and that shares the bits the ports trie needed has the same ports under the mask |
| `SubtableLookup.PortsShiftDefined` | openvswitch-2.3.0/lib/classifier.c:1829-1838 | the ports trie yields 1 to 32 bits, so the shift that builds the mask is defined |
| `SubtableLookup.NoHoleWithoutLaterWords` | openvswitch-2.3.0/lib/classifier.c:1819-1828 | there is no unsound case if no mask bit follows the ports |
| `SubtableLookup.HoleUnsound` | openvswitch-2.3.0/lib/classifier.c:1819-1843 | with a hole behind the ports, a mask that leaves the later words out is unsound |
| `SubtableLookup.FindMatchWc` | openvswitch-2.3.0/lib/classifier.c:1750-1848 | the right result; the mask only grows, by bits of the subtable's mask and, after a miss, by none behind the stage at which the miss was clear but for those a trie looked at, and in the ports by no more than the ports trie looked at; a flow that agrees on it gets the same result or, after a miss, matches only rules that agree with the flow looked up as far as the ports; without such rules it is sound and, where nothing else looked at the later words, with them it is not |
| `PriorityCache.RaisedSorted` | openvswitch-2.3.0/lib/classifier.c:1544-1584 | moving an entry up after its priority grew keeps the order descending |
| `PriorityCache.LoweredSorted` | openvswitch-2.3.0/lib/classifier.c:1596-1641 | moving it down after it shrank does too |
| `PriorityCache.OrderRaise` | openvswitch-2.3.0/lib/classifier.c:1544-1584 | the array stays a permutation of the subtables with their true priorities |
| `PriorityCache.OrderLower` | openvswitch-2.3.0/lib/classifier.c:1596-1641 | the same for a lowered priority |
| `PriorityCache.OrderDrop` | openvswitch-2.3.0/lib/classifier.c:1509-1532 | and for a subtable that goes |
| `PriorityCache.SubtableCache.PushBack` | openvswitch-2.3.0/lib/classifier.c:204-214 | an entry is added at the end, the array doubling when full |
| `PriorityCache.SubtableCache.Move` | openvswitch-2.3.0/lib/classifier.c:218-235 | one entry goes to another place and those in between shift by one |
| `PriorityCache.SubtableCache.RemoveAt` | openvswitch-2.3.0/lib/classifier.c:238-248 | the entry goes and those after it close up |
| `PriorityCache.SubtableCache.Raise` | openvswitch-2.3.0/lib/classifier.c:1544-1584 | scan and move give the raised order; the "Corrupted cache?" abort is not reachable |
| `PriorityCache.SubtableCache.Lower` | openvswitch-2.3.0/lib/classifier.c:1596-1641 | scan and move give the lowered order; the abort is not reachable |
| `Classifier.ReplaceOk` | openvswitch-2.3.0/lib/classifier.c:875-928 | the whole invariant (subtables, order, partitions, tries, count) holds with the new rule in place of the identical one |
| `Classifier.RemoveOk` | openvswitch-2.3.0/lib/classifier.c:946-1012 | and without the removed rule |
| `Classifier.RefieldedOk` | openvswitch-2.3.0/lib/classifier.c:727-764 | and with other prefix fields |
| `Classifier.RunInv` | openvswitch-2.3.0/lib/classifier.c:662-1012 | the invariant holds in every state of every run |
| `Classifier.StageOffsetsExact` | openvswitch-2.3.0/lib/classifier.c:1458-1484 | an index ends at a segment boundary exactly if the mask has bits in that segment and bits behind it |
| `Classifier.BuildTrie` | openvswitch-2.3.0/lib/classifier.c:766-800 | a trie built from the present rules holds exactly their prefixes |
| `Classifier.CreatePartition` | openvswitch-2.3.0/lib/classifier.c:838-853 | the partition of the rule's metadata tracks one more tag |
| `Classifier.DropFromPartition` | openvswitch-2.3.0/lib/classifier.c:988-999 | the tag goes from the partition, and the partition with its last tag |
| `ClassifierLookup.TagSkip` | openvswitch-2.3.0/lib/classifier.c:1080-1085 | a subtable whose tag misses the search tags has no rule for any flow with this metadata |
| `ClassifierLookup.SearchTagsTwo` | openvswitch-2.3.0/lib/classifier.c:1057-1074 | the search tags have at least two bits, so subtables without exact metadata are always searched |
| `ClassifierLookup.OthersPassed` | openvswitch-2.3.0/lib/classifier.c:1057-1085 | where no rule names the metadata, the subtables of rules that name some are passed by, but for those with the arbitrary tag, and all others are searched |
| `ClassifierLookup.ScanTail` | openvswitch-2.3.0/lib/classifier.c:1091-1106 | subtables below the best priority found change nothing |
| `ClassifierLookup.ScanAll` | openvswitch-2.3.0/lib/classifier.c:1048-1128 | the search without shortcuts finds a best match of all rules |
| `ClassifierLookup.RunFindsBest` | openvswitch-2.3.0/lib/classifier.c:875-1128 | so it does in every state of every run |
| `ClassifierLookup.SearchSubtable` | openvswitch-2.3.0/lib/classifier.c:1107-1120 | one subtable, with or without a mask to extend: its best match, and what the mask is good for |
| `ClassifierLookup.PortsLastNoHoles` | openvswitch-2.3.0/lib/classifier.c:1819-1828 | masks that end with the ports have no holes for any flow |
| `ClassifierLookup.HarmfulUndecided` | openvswitch-2.3.0/lib/classifier.c:1819-1843 | a rule that misses only behind the ports and would win makes every mask without those words unsound |
| `ClassifierLookup.DecidedStep` | openvswitch-2.3.0/lib/classifier.c:1091-1120 | one subtable's mask keeps the results of all agreeing flows equal, or all short of the final one |
| `ClassifierLookup.FromSearchedNext` | openvswitch-2.3.0/lib/classifier.c:1107-1120 | one more subtable adds to the mask only what that subtable wants |
| `ClassifierLookup.Lookup` | openvswitch-2.3.0/lib/classifier.c:1048-1128 | with and without a mask the result is that of the search without shortcuts: a matching rule of highest priority, or none exactly when nothing matches; every bit added to the mask is one of the mask of a subtable that had to be searched (its tag among the search tags, nothing as good found before) and, if that has no match, one it took to know so; every flow with the same metadata that agrees on the mask gets the same rule if the rules that miss the flow only behind the ports are of lower priority than the result; if one is of higher priority and nothing behind the ports is in the mask, some such flow does not; a lookup that finds nothing, in a classifier whose masks have bits behind the ports only together with bits in them, produces a sound mask exactly if there are no such rules |
| `OpenFlowTable.Table.constructor` | openvswitch-2.3.0/lib/classifier.c:662-683 | an empty table with the first of the index boundaries given, at most three and inside a flow, and as many as that allows |
| `OpenFlowTable.Table.Replace` | openvswitch-2.3.0/lib/classifier.c:875-941 | the table holds the rule instead of the identical one, which is returned |
| `OpenFlowTable.Table.Remove` | openvswitch-2.3.0/lib/classifier.c:946-1012 | the table holds all but the rule |
| `OpenFlowTable.Table.FindEntry` | openvswitch-2.3.0/lib/classifier.c:1516-1524 | the search for a subtable's own entry finds it |
| `OpenFlowTable.Table.Lookup` | openvswitch-2.3.0/lib/classifier.c:1048-1128 | the lookup on the table as an object, with the same bounds and conditions on its mask |
| `OpenFlowTable.Table.SetPrefixFields` | openvswitch-2.3.0/lib/classifier.c:727-764 | at most three tries, of different trackable fields asked for, each holding the present rules; the rules stay; which fields they are, and in what order |
| `OpenFlowTable.ChosenServed` | openvswitch-2.3.0/lib/classifier.c:727-764 | these are the first trackable fields asked for: one that is not among them comes after three others |
| `OpenFlowTable.HoleExample` | openvswitch-2.3.0/lib/classifier.c:1819-1843 | for any segments that end by the ports: a classifier reached by inserting one rule, and a flow that misses it, such that every mask a lookup can produce from one without the words behind the ports is unsound |
| `FlowInstance.TableInstance.constructor` | openvswitch-2.3.0/datapath/flow_table.c:194-213 | an empty instance with a power of two of buckets |
| `FlowInstance.TableInstance.Insert` | openvswitch-2.3.0/datapath/flow_table.c:417-423 | the flow is at the head of its bucket's chain; its link in the other instance stays |
| `FlowInstance.TableInstance.Find` | openvswitch-2.3.0/datapath/flow_table.c:533-556 | walking one bucket finds a flow that meets mask, hash and key, or none does |
| `FlowInstance.TableInstance.Delete` | openvswitch-2.3.0/datapath/flow_table.c:733-744 | all flows but one; every link in the other instance stays |
| `FlowInstance.InsertOk` | openvswitch-2.3.0/datapath/flow_table.c:417-423 | adding at the head keeps every chain exact |
| `FlowInstance.DeleteOk` | openvswitch-2.3.0/datapath/flow_table.c:733-744 | unlinking anywhere keeps every chain exact |
| `FlowInstance.Rehash` | openvswitch-2.3.0/datapath/flow_table.c:425-460 | the new instance has the same flows in the other link, the old chains are as they were |
| `FlowInstance.CopyBucket` | openvswitch-2.3.0/datapath/flow_table.c:432-444 | one old bucket, followed along old links while new ones are written |
| `FlowInstance.TableInstance.DumpNext` | openvswitch-2.3.0/datapath/flow_table.c:383-408 | each call yields the next flow of those a dump has still to visit, and resumes behind it |
| `FlowInstance.DumpComplete` | openvswitch-2.3.0/datapath/flow_table.c:383-408 | a dump from the start visits every flow, and none twice |
| `MaskArray.SlotIsLive` | openvswitch-2.3.0/datapath/flow_table.c:558-583 | any slot, also one past the count or named by a stale index, is empty or holds a mask in use |
| `MaskArray.ScanSeesAll` | openvswitch-2.3.0/datapath/flow_table.c:558-583 | a scan up to the first empty slot has seen every mask in use |
| `MaskArray.AppendedOk` | openvswitch-2.3.0/datapath/flow_table.c:787-827 | slots below the count stay filled and different, later ones repeat them |
| `MaskArray.DeletedOk` | openvswitch-2.3.0/datapath/flow_table.c:264-303 | after a deletion no slot names the mask and no other mask is lost |
| `MaskArray.ResizedOk` | openvswitch-2.3.0/datapath/flow_table.c:237-262 | growing and shrinking lose no mask |
| `MaskArray.Masks.Realloc` | openvswitch-2.3.0/datapath/flow_table.c:237-262 | the copied array holds the same masks |
| `MaskArray.Masks.Append` | openvswitch-2.3.0/datapath/flow_table.c:811-818 | one mask more |
| `MaskArray.Masks.Delete` | openvswitch-2.3.0/datapath/flow_table.c:264-303 | one mask less, in no slot any more |
| `MegaflowTable.RefsAdd` | openvswitch-2.3.0/datapath/flow_table.c:787-827 | counting a flow under a mask keeps counts equal to users |
| `MegaflowTable.RefsSub` | openvswitch-2.3.0/datapath/flow_table.c:704-730 | so does dropping one; at zero nobody uses the mask |
| `MegaflowTable.RefsFlushed` | openvswitch-2.3.0/datapath/flow_table.c:462-478 | after a flush the counts are only upper bounds |
| `MegaflowTable.FlowTable.constructor` | openvswitch-2.3.0/datapath/flow_table.c:305-334 | an empty table with 1024 buckets and a cleared cache |
| `MegaflowTable.FlowTable.MaskedLookup` | openvswitch-2.3.0/datapath/flow_table.c:533-556 | a matching flow under this mask, or none under it matches |
| `MegaflowTable.FlowTable.Scan` | openvswitch-2.3.0/datapath/flow_table.c:558-583 | a matching flow under the first mask in the array that has one, and that mask's place, or no flow matches |
| `MegaflowTable.FirstHitUnique` | openvswitch-2.3.0/datapath/flow_table.c:558-583 | while no two flows have the same mask and masked key, the scan has one possible result |
| `MegaflowTable.TwinsAdd` | openvswitch-2.3.0/datapath/flow_table.c:830-859 | a flow that differs from all under its mask keeps it so |
| `MegaflowTable.FlowTable.LookupStats` | openvswitch-2.3.0/datapath/flow_table.c:592-653 | for any cache contents: a flow is found exactly when one matches, it matches under its own mask, and it is the one flow that matches if there is only one; the cache then remembers its mask for the hash, and a remembered mask that has a match is the one used |
| `MegaflowTable.FlowTable.FindEntry` | openvswitch-2.3.0/datapath/flow_table.c:611-645 | the loop over the segments of the hash: a match through the remembered mask, or the entry to use next |
| `MegaflowTable.MaskedAgree` | openvswitch-2.3.0/datapath/flow_table.c:65-81 | masked keys are equal exactly if the keys agree wherever the mask has ones |
| `MegaflowTable.FlowTable.FindMask` | openvswitch-2.3.0/datapath/flow_table.c:768-784 | an equal mask in use, or none is equal |
| `MegaflowTable.FlowTable.TakeMask` | openvswitch-2.3.0/datapath/flow_table.c:787-827 | an equal mask is counted once more, else a new one is added; fails exactly for want of memory, changing nothing |
| `MegaflowTable.FlowTable.Insert` | openvswitch-2.3.0/datapath/flow_table.c:830-859 | the flow is in, reference counts equal users, masks stay pairwise different; fails exactly for want of memory and then changes nothing |
| `MegaflowTable.FlowTable.Resize` | openvswitch-2.3.0/datapath/flow_table.c:846-857 | buckets double exactly when there are more flows than buckets and memory allows; otherwise the chains are rebuilt under a new seed exactly when that is due; the flows stay |
| `MegaflowTable.FlowTable.DropMask` | openvswitch-2.3.0/datapath/flow_table.c:704-730 | one reference less, and the mask goes with the last one; the array is halved exactly when it is long enough and a quarter of it would do |
| `MegaflowTable.FlowTable.Remove` | openvswitch-2.3.0/datapath/flow_table.c:733-744 | the flow is out, reference counts equal users, the mask is there exactly while counted |
| `MegaflowTable.FlowTable.Flush` | openvswitch-2.3.0/datapath/flow_table.c:462-478 | no flow left, masks and counts as they were |
| `MegaflowTable.FlowTable.CmdNew` | openvswitch-2.3.0/datapath/datapath.c:884-904 | a flow is put in exactly when none matches its unmasked key and memory allows; then it alone matches that key, and no two flows ever share mask and masked key |
| `ActionModel.ReceivedPacketBounded` | openvswitch-2.3.0/datapath/actions.c:660-720 | for any flow tables and ports: the loop counter returns to idle, at most 16 lists are active at a time, the counter stays at most 23, no list begins once a loop is detected |
| `ActionModel.ExecuteLog` | openvswitch-2.3.0/datapath/actions.c:688-720 | the same bounds at every depth of nesting |
| `ActionModel.LoopReported` | openvswitch-2.3.0/datapath/actions.c:688-720 | a loop is reported exactly when some list was suppressed on the way |
| `ActionTrace.ExecFollowed` | openvswitch-2.3.0/datapath/actions.c:576-658 | for any list, packet, tables and ports, the events a list causes are, in its order and without gaps: each output with the packet as it is then, if the port is there, followed by a lookup with identifier and hash zero for what the port hands back; each upcall with packet and hash; each recirculation looked up with its identifier and the hash so far; each sample's draw, and its list exactly if the draw is below the probability; and it ends early exactly at a failing edit or recirculation |
| `ActionTrace.PlainLog` | openvswitch-2.3.0/datapath/actions.c:391-406 | for lists of outputs, upcalls, hashes and edits, place by place: the log grows by exactly the packets after the edits before each output or upcall, up to the first edit that fails |
| `ActionTrace.ProcessFollowed` | openvswitch-2.3.0/datapath/datapath.c:243-285 | a packet is looked up with the key given; without a flow it goes to user space; with one it is cut off exactly if the cost would exceed 19 or a loop is known, and else the flow's list is followed, with the tunnel forgotten |
| `ActionTrace.EmitSent` | openvswitch-2.3.0/datapath/actions.c:391-406 | a port that is there gets the packet, one that is not gets nothing, and what a port hands back is looked up afresh |
| `ActionTrace.LoopCutsOff` | openvswitch-2.3.0/datapath/actions.c:704-716 | a flow loses its actions exactly when its list ends in a loop |
| `ActionExec.Datapath.DoOutput` | openvswitch-2.3.0/datapath/actions.c:391-406 | the log grows by the packet and port, if the port is there, and by the lookup of what comes straight back; the buffer is gone |
| `ActionExec.Datapath.ProcessPacket` | openvswitch-2.3.0/datapath/datapath.c:243-285 | the lookup with the key given is logged, then the flow's list is followed or cut off, or the miss reported; the buffer is gone in every case |
| `ActionExec.Datapath.ReceivePacket` | openvswitch-2.3.0/datapath/datapath.c:288-303 | on an idle CPU: the buffer and every copy of it are gone afterwards and the bounds above were kept |
| `ActionExec.Datapath.ExecuteActions` | openvswitch-2.3.0/datapath/actions.c:688-720 | the cost is back, a flow loses its actions exactly if its list ended in a loop, the buffer is gone; a loop is reported exactly when some list was suppressed during the call |
| `ActionExec.Datapath.ExecuteRecirc` | openvswitch-2.3.0/datapath/actions.c:553-573 | the buffer is consumed whether or not a key can be extracted |
| `ActionExec.Datapath.ExecuteSample` | openvswitch-2.3.0/datapath/actions.c:443-490 | the nested list sees its own packet, all references taken are released |
| `ActionExec.Datapath.Perform` | openvswitch-2.3.0/datapath/actions.c:592-650 | one action: who still owns the buffer, for each way it can end |
| `ActionExec.Datapath.DoExecuteActions` | openvswitch-2.3.0/datapath/actions.c:576-658 | the same outputs, upcalls, hash and error as the interpreter that copies at every output; the events are those that the list prescribes, in its order, and for a plain list exactly the packets, one by one; one reference is released, on every path |
| `ActionExec.OutputFirst` | openvswitch-2.3.0/datapath/actions.c:589-596 | an output that is owed may be made before anything else happens |
| `Netlink.FirstPut` | openvswitch-2.3.0/datapath/flow_netlink.c:274-318 | an attribute that was written is read back, whatever follows it |
| `Netlink.AttrsPutAll` | openvswitch-2.3.0/datapath/flow_netlink.c:274-318 | a list that was written is what a loop over it visits, with nothing left over |
| `FlowKeyNetlink.TunFromNlattr` | openvswitch-2.3.0/datapath/flow_netlink.c:332-419 | the loop over a tunnel's attributes, with all its refusals |
| `FlowKeyNetlink.TunRoundTrip` | openvswitch-2.3.0/datapath/flow_netlink.c:332-454 | a tunnel with a destination is read back as it was written exactly if it has no unknown flags and no identifier without its flag |
| `FlowKeyNetlink.ParseFlowNlattrs` | openvswitch-2.3.0/datapath/flow_netlink.c:274-330 | the attributes by kind; refused for an unknown kind, a kind twice, a wrong length or trailing bytes |
| `FlowKeyNetlink.ReadMatch` | openvswitch-2.3.0/datapath/flow_netlink.c:750-852 | the decoder without a mask, encapsulation included; what it accepts is said by `NetlinkAcceptance.GetMatchAccepts` and `NetlinkAcceptance.GetMatchNeeds` |
| `FlowKeyNetlink.MetaBack` | openvswitch-2.3.0/datapath/flow_netlink.c:457-507 | ports, priority, mark, hash, recirculation come back, and the tunnel exactly if it can be expressed |
| `FlowKeyNetlink.NetBack` | openvswitch-2.3.0/datapath/flow_netlink.c:564-637 | the IPv4, IPv6, ARP and neighbour discovery parts come back through the union they share exactly if what the ethertype does not carry is zero |
| `FlowKeyNetlink.TpBack` | openvswitch-2.3.0/datapath/flow_netlink.c:639-703 | the transport part comes back exactly if what the protocol does not carry is zero |
| `FlowKeyNetlink.ExpectedThere` | openvswitch-2.3.0/datapath/flow_netlink.c:109-234 | an encoded key carries every attribute that validation expects |
| `FlowKeyNetlink.KeyRoundTrip` | openvswitch-2.3.0/datapath/flow_netlink.c:750-1094 | a key, encoded to bytes and decoded, is accepted and the same key exactly if it is well formed |
| `FlowKeyNetlink.TruncatedRejected` | openvswitch-2.3.0/datapath/flow_netlink.c:530-541 | a truncated 802.1Q key is encoded in a form that is always refused |
| `NetlinkAcceptance.ParsedExact` | openvswitch-2.3.0/datapath/flow_netlink.c:274-330 | a message is parsed exactly if it is all attributes, each of a known kind, of its length and there once, and into exactly these |
| `NetlinkAcceptance.TunFromExact` | openvswitch-2.3.0/datapath/flow_netlink.c:332-419 | a tunnel is accepted exactly if its attributes are known and of their lengths, with a time to live and a destination that is not zero, and is what the last of each kind say |
| `NetlinkAcceptance.MatchAccepts` | openvswitch-2.3.0/datapath/flow_netlink.c:109-234 | attributes make a key exactly if each has a legal value and none is missing that the others call for |
| `NetlinkAcceptance.MatchNeeds` | openvswitch-2.3.0/datapath/flow_netlink.c:109-234 | an accepted key came with every attribute that the encoder would write for it |
| `NetlinkAcceptance.GetMatchAccepts` | openvswitch-2.3.0/datapath/flow_netlink.c:750-852 | a message is accepted exactly if that holds of its attributes once an encapsulation is opened |
| `NetlinkAcceptance.GetMatchNeeds` | openvswitch-2.3.0/datapath/flow_netlink.c:750-852 | whatever message is accepted carried, once opened, every attribute that the encoder would write for its key |
| `ActionNetlink.TunFromSized` | openvswitch-2.3.0/datapath/flow_netlink.c:332-419 | whatever tunnel is accepted can be written again |
| `ActionNetlink.BackSample` | openvswitch-2.3.0/datapath/flow_netlink.c:1534-1568 | a stored sample comes back with its list given back |
| `ActionNetlink.BackTunnel` | openvswitch-2.3.0/datapath/flow_netlink.c:1570-1596 | a stored tunnel comes back as attributes |
| `ActionNetlink.ActionsRoundTrip` | openvswitch-2.3.0/datapath/flow_netlink.c:1430-1626 | every accepted action list comes back as it was handed in, up to padding, the order inside samples and the form of tunnels, at any depth of samples |
| `ActionNetlink.CanonicalTunnel` | openvswitch-2.3.0/datapath/flow_netlink.c:1278-1299 | the canonical form of a tunnel is read as the same tunnel |
| `NetlinkAcceptance.SetTransport` | openvswitch-2.3.0/datapath/flow_netlink.c:1370-1388 | for a well-formed key a TCP, UDP or SCTP header may be set exactly if the encoder writes one of that kind with ports that are not both zero |
| `NetlinkAcceptance.SetNetwork` | openvswitch-2.3.0/datapath/flow_netlink.c:1335-1368 | an IPv4 or IPv6 header exactly if the encoder writes one of that kind, with a protocol, and neither that nor the fragment type changes, and a flow label has at most twenty bits |
| `NetlinkAcceptance.SetOthers` | openvswitch-2.3.0/datapath/flow_netlink.c:1301-1393 | priority, mark and Ethernet addresses always, at their lengths; no other kind ever |
| `NetlinkAcceptance.OutputAccepted` | openvswitch-2.3.0/datapath/flow_netlink.c:1473-1476 | a port may be named by an output exactly if a key may come from it |
| `NetlinkAcceptance.PushAccepted` | openvswitch-2.3.0/datapath/flow_netlink.c:1494-1500 | a tag may be pushed exactly if a key may have it |
| `NetlinkAcceptance.PlainOthers` | openvswitch-2.3.0/datapath/flow_netlink.c:1464-1509 | the other plain actions: exactly which are accepted, and that there are no others |
| `NetlinkAcceptance.ListAccepted` | openvswitch-2.3.0/datapath/flow_netlink.c:1430-1532 | a list is accepted exactly if each of its actions is |
| `NetlinkAcceptance.SampleDepth` | openvswitch-2.3.0/datapath/flow_netlink.c:1438-1439 | samples nest two deep and no deeper |
| `NetlinkAcceptance.PartsExact` | openvswitch-2.3.0/datapath/flow_netlink.c:1203-1228 | a sample is one probability of four bytes and one list of actions, in either order, and nothing else |
| `ActionBuffer.GrownFits` | openvswitch-2.3.0/datapath/flow_netlink.c:1128-1161 | when a request lies inside the grown buffer, both ways |
| `ActionBuffer.GrownOverrun` | openvswitch-2.3.0/datapath/flow_netlink.c:1128-1161 | a request that does not |
| `ActionBuffer.Buffer.constructor` | openvswitch-2.3.0/datapath/flow_netlink.c:1098-1111 | an empty buffer with at least the room asked for |
| `ActionBuffer.Buffer.Reserve` | openvswitch-2.3.0/datapath/flow_netlink.c:1128-1161 | the reserved bytes lie inside the buffer and growth keeps what was there; a failure changes nothing |
| `ActionBuffer.Buffer.AddAction` | openvswitch-2.3.0/datapath/flow_netlink.c:1163-1179 | one whole attribute at the end, padded |
| `ActionBuffer.Buffer.EndNested` | openvswitch-2.3.0/datapath/flow_netlink.c:1194-1201 | patching the length turns a header and what follows into one attribute |
| `ActionBuffer.Buffer.CopySetTunnel` | openvswitch-2.3.0/datapath/flow_netlink.c:1278-1299 | a tunnel is stored in the kernel's own form, or refused |
| `ActionBuffer.Buffer.CopySample` | openvswitch-2.3.0/datapath/flow_netlink.c:1203-1250 | a sample is stored with its list checked and copied, or refused |
| `ActionBuffer.Buffer.CopyActions` | openvswitch-2.3.0/datapath/flow_netlink.c:1430-1532 | the checked copy is at the end of the buffer; refused as invalid only if the list is, which `NetlinkAcceptance` says for every action; earlier contents always stay |
| `BfdSession.NextTx` | openvswitch-2.3.0/lib/bfd.c:990-996 | the next transmission is due between three quarters and the whole of the interval after the last |
| `BfdSession.ForwardingInv` | openvswitch-2.3.0/lib/bfd.c:909-933 | the forwarding verdict is true exactly when the flap count is odd, also as the count wraps |
| `BfdSession.SetStateInv` | openvswitch-2.3.0/lib/bfd.c:1099-1145 | a state change keeps the session invariant |
| `BfdSession.ConfigureInv` | openvswitch-2.3.0/lib/bfd.c:336-493 | creation and any reconfiguration establish and keep it |
| `BfdSession.LearnInv` | openvswitch-2.3.0/lib/bfd.c:796-836 | Poll and Final are never both set by what a packet asks for |
| `BfdSession.TransitionInv` | openvswitch-2.3.0/lib/bfd.c:838-870 | the state machine keeps it |
| `BfdSession.AfterInv` | openvswitch-2.3.0/lib/bfd.c:271-963 | after every history: never Poll and Final together, never AdminDown, above Down the remote discriminator is known, the parity of flaps, intervals in range |
| `BfdSession.MsgIntervals` | openvswitch-2.3.0/lib/bfd.c:648-657 | a packet carries, in microseconds, the intervals proposed during a poll sequence and those in effect otherwise, and while not Up a transmit interval of at least a second; up to the 32 bits of the field |
| `BfdSession.Discarded` | openvswitch-2.3.0/lib/bfd.c:696-795 | a packet is discarded exactly for one of the reasons section 6.8.6 of RFC 5880 and the source give |
| `BfdSession.PollStep` | openvswitch-2.3.0/lib/bfd.c:796-823 | a poll sequence goes on with the intervals it proposed until a packet with Poll or Final is heard, and a Final puts them into effect |
| `BfdSession.QuietStep` | openvswitch-2.3.0/lib/bfd.c:696-880 | only a packet that passes validation moves the detection time or raises the state |
| `BfdSession.HeardStep` | openvswitch-2.3.0/lib/bfd.c:834-836 | it sets the detection time to the agreed interval times the multiplier from then |
| `BfdSession.DeadlineKept` | openvswitch-2.3.0/lib/bfd.c:696-880 | above Down, the detection time is that of the last packet heard |
| `BfdSession.Detection` | openvswitch-2.3.0/lib/bfd.c:548-576 | after bfd_run, a session above Down heard its peer within the detection time of the last packet heard |
| `BfdObject.Bfd.constructor` | openvswitch-2.3.0/lib/bfd.c:336-493 | a configured session is Down, knows no peer, polls nobody, and is where the histories of the session model start |
| `BfdObject.SetStateMeans` | openvswitch-2.3.0/lib/bfd.c:1099-1145 | a state change leaves the deadline, the flags, the forwarding verdict and the next transmission; above Down also the peer and the rates, and a session that goes Down forgets its peer |
| `BfdObject.Bfd.UpdateForwarding` | openvswitch-2.3.0/lib/bfd.c:909-933 | the verdict returned, and a flap counted exactly when it changed |
| `BfdObject.Bfd.Query` | openvswitch-2.3.0/lib/bfd.c:271-281 | the verdict: Up, or data received lately where that counts, and no failure reported by the peer; the flap count is odd exactly while it is true, after any history |
| `BfdObject.Bfd.RunOnce` | openvswitch-2.3.0/lib/bfd.c:548-576 | a session still above Down heard its peer within the detection time of the last packet heard in its whole history; one that did not is Down with its peer forgotten; intervals not in effect are being negotiated, the configured ones or the slower one while decaying; decay is decided when due, exactly by the packets received |
| `BfdObject.Bfd.PutPacket` | openvswitch-2.3.0/lib/bfd.c:588-668 | whatever happened before, the packet never has Poll and Final together, names the peer when above Down, carries the intervals being negotiated or in effect, and at least a second while not Up; the next one is due between three quarters and the whole of the interval |
| `BfdObject.TransitionMeans` | openvswitch-2.3.0/lib/bfd.c:838-870 | Up is reached and kept only against a peer above Down, a peer in AdminDown takes the session Down, AdminDown is never entered |
| `BfdObject.Bfd.ProcessPacket` | openvswitch-2.3.0/lib/bfd.c:696-880 | a packet that fails validation changes nothing that counts; one that passes sets the deadline, has its Poll answered and its Final end the poll, is remembered field by field, moves the next transmission exactly if the peer's rate changed, and brings the session Up only if its sender is above Down |
| `BfdObject.Bfd.Reconfigure` | openvswitch-2.3.0/lib/bfd.c:400-493 | the state and the deadline stay; while Up the session may at once send faster or ask for less, not the other way round; other intervals are negotiated; decay, concatenated path and reception of data are set as configured |
| `BfdObject.Bfd.AccountRx` | openvswitch-2.3.0/lib/bfd.c:284-294 | data received put off the end of forwarding where that counts, by the detection time of the rates in effect, at least two seconds |
| `BfdPeers.AlwaysFine` | openvswitch-2.3.0/lib/bfd.c:696-880 | in every run of two peers, a peer's discriminator is known only after hearing it, and it is the right one |
| `BfdPeers.AboveDownKnowsPeer` | openvswitch-2.3.0/lib/bfd.c:696-880 | a session above Down knows exactly its peer's discriminator |
| `BfdPeers.UpSinceWhen` | openvswitch-2.3.0/lib/bfd.c:838-870 | a peer that is Up came up by hearing a packet sent in Init or Up, and stayed |
| `BfdPeers.UpMeansHandshake` | openvswitch-2.3.0/lib/bfd.c:588-880 | whenever a peer is Up, the other one had heard it, then sent a packet in Init or Up carrying its discriminator, which it then heard, and it has been Up since |
| `BfdPeers.NoneRefused` | openvswitch-2.3.0/lib/bfd.c:696-795 | in every run of two peers, no packet of the other is refused, however late or often it arrives |
| `BfdPeers.AlwaysPeers` | openvswitch-2.3.0/lib/bfd.c:696-880 | at every point of every run each has heard nobody but the other |
| `BfdPeers.ComeUp` | openvswitch-2.3.0/lib/bfd.c:588-880 | from whatever states a run left them in, two sessions that hear each other three times in turn are both Up, and stay so |
| `BfdPeers.HeardRates` | openvswitch-2.3.0/lib/bfd.c:588-836 | end to end: a session that stays above Down after hearing its peer knows the rates the peer has in effect, or proposes while polling |
| `BfdPeers.ThreeIntervals` | openvswitch-2.3.0/lib/bfd.c:588-836 | and waits for exactly three of the intervals at which the peer sends |
| `FlowStats.NextInv` | openvswitch-2.3.0/datapath/flow.c:65-124 | every step of every CPU keeps: work on a record only under its lock, no change between reading and writing, no record published twice |
| `FlowStats.NextOthers` | openvswitch-2.3.0/datapath/flow.c:65-124 | no step disturbs what another CPU is in the middle of |
| `FlowStats.EveryInterleaving` | openvswitch-2.3.0/datapath/flow.c:65-124 | in every interleaving packets and bytes over all nodes are those begun less those under way, and no record is ever replaced |
| `FlowStats.AllCounted` | openvswitch-2.3.0/datapath/flow.c:65-124 | when no CPU is in an update, every packet and byte has been counted once |
| `FlowStats.OnlyWriter` | openvswitch-2.3.0/datapath/flow.c:83-113 | in any interleaving in which one node writes, no further record comes to be |
| `FlowStats.SecondWriter` | openvswitch-2.3.0/datapath/flow.c:83-113 | a second node gets a record of its own, with the packet that brought it, exactly if it has none and memory allows, and else writes the common one |
| `FlowStats.GetBetween` | openvswitch-2.3.0/datapath/flow.c:127-153 | in any interleaving with updates, the totals are at least what had been counted when the reading began and at most what has been when it ends |
| `FlowStats.ReadAlone` | openvswitch-2.3.0/datapath/flow.c:137-150 | while a record is held to be read, no CPU is writing it |
| `ByteQueue.ByteQ.constructor` | openvswitch-2.3.0/lib/byteq.c:28-35 | an empty queue over a buffer whose size is a power of two |
| `ByteQueue.ByteQ.Headroom` | openvswitch-2.3.0/lib/byteq.c:185-191 | free bytes in one piece, some if there are any |
| `ByteQueue.ByteQ.Tailroom` | openvswitch-2.3.0/lib/byteq.c:150-156 | queued bytes in one piece, some if there are any |
| `ByteQueue.ByteQ.AdvanceHead` | openvswitch-2.3.0/lib/byteq.c:195-200 | the bytes at the head become part of the queue, also when the counter wraps |
| `ByteQueue.ByteQ.AdvanceTail` | openvswitch-2.3.0/lib/byteq.c:168-173 | the oldest bytes go, also when the counter wraps |
| `ByteQueue.ByteQ.PutN` | openvswitch-2.3.0/lib/byteq.c:78-90 | the bytes are appended, in one or two pieces |
| `ByteQueue.ByteQ.Get` | openvswitch-2.3.0/lib/byteq.c:102-110 | the oldest byte is taken |
| `ByteQueue.RingAppend` | openvswitch-2.3.0/lib/byteq.c:78-90 | writing behind what is queued appends to it and changes nothing else |
| `AsyncAppend.TilesAppend` | openvswitch-2.3.0/lib/async-append-aio.c:116-155 | a block for the bytes just written extends the tiling |
| `AsyncAppend.Appender.constructor` | openvswitch-2.3.0/lib/async-append-aio.c:53-66 | nothing handed over yet |
| `AsyncAppend.Appender.Reap` | openvswitch-2.3.0/lib/async-append-aio.c:106-111 | the oldest block covers the oldest bytes in one piece, so advancing the tail is allowed; those bytes are as they were when handed over |
| `AsyncAppend.Appender.Wait` | openvswitch-2.3.0/lib/async-append-aio.c:92-114 | at least one write is finished if any is pending |
| `AsyncAppend.Appender.Flush` | openvswitch-2.3.0/lib/async-append-aio.c:157-163 | everything handed over is finished |
| `AsyncAppend.Appender.Submit` | openvswitch-2.3.0/lib/async-append-aio.c:127-153 | a chunk taken is queued and handed over; a chunk refused changes neither |
| `AsyncAppend.Appender.Write` | openvswitch-2.3.0/lib/async-append-aio.c:116-155 | the system is handed exactly the data, after all earlier data, whatever it refuses and however long it takes; blocks tile the queue throughout |
| `Checksum.Continue` | openvswitch-2.3.0/lib/csum.c:58-70 | the 32-bit sum of the words |
| `Checksum.Finish` | openvswitch-2.3.0/lib/csum.c:79-86 | the loop ends, with the complement of the sum reduced modulo 65535 |
| `Checksum.Compute` | openvswitch-2.3.0/lib/csum.c:29-33 | the checksum of some data |
| `Checksum.NoOverflow` | openvswitch-2.3.0/lib/csum.c:58-70 | up to 65537 words the 32-bit sum does not overflow |
| `Checksum.ContinueComposes` | openvswitch-2.3.0/lib/csum.c:58-70 | continuing over an even split is the same as over the whole |
| `Checksum.OddIsPadded` | openvswitch-2.3.0/lib/csum.c:66-68 | odd data sum up like data padded with zero, exactly on a little-endian host or if the last byte is zero |
| `Checksum.Recalc16` | openvswitch-2.3.0/lib/csum.c:91-103 | the incremental update of one word |
| `Checksum.Recalc32` | openvswitch-2.3.0/lib/csum.c:108-113 | of two words |
| `Checksum.Recalc128` | openvswitch-2.3.0/lib/csum.c:118-130 | of eight words |
| `Checksum.Recalc16Exact` | openvswitch-2.3.0/lib/csum.c:91-103 | the update of a word gives the checksum of the new data exactly when these are not all zero |
| `Checksum.RecalcExact` | openvswitch-2.3.0/lib/csum.c:108-130 | the same for any number of aligned 32-bit words |

## Left out

- Classifier: cursors, exact-match and overlap queries, and the lookup by miniflow; flows and masks are dense arrays of words, not compressed.
- Classifier: the classifier holds its tries as values; `TrieMemory` shows that updating nodes in memory comes to the same. Lookups and the destruction of a whole trie are not carried over to memory.
- TrieMemory.Memory.RemovePrefix: the stack of edges is a sequence, which grows where the source's array would be overrun; what the source does then is not modelled.
- Classifier: hash tables yield their entries in any order and hash functions are parameters; nothing is said about how good they are.
- Classifier: the layout of a flow is that of a 64-bit build, 50 words with the metadata at 6 and the ports at 47.
- Classifier: equality of the masks that two lookups produce; metadata is not un-wildcarded by skipped partitions, so soundness is for flows with the same metadata.
- ClassifierLookup.Lookup: for a lookup that finds a rule, nothing is said about rules of the same priority that miss only behind the ports, nor about unsoundness when the mask has bits there.
- Megaflow table: RCU grace periods and freeing; table updates are atomic steps, and the mask cache is that of one CPU.
- MegaflowTable.FlowTable.LookupStats: stored mask indices are natural numbers, as the scan yields them; the count of masks hit is not kept.
- FlowInstance.TableInstance.Delete: the predecessor that an hlist node points back to is found by walking the chain.
- Actions: what editing a packet does to its bytes and checksums, port statistics and per-CPU hit counters; copies of a buffer are assumed to succeed.
- Netlink: mask attributes, key ranges, and running out of room in the message that is written; the flag bits of attribute types and the contents of padding are not kept by the copy.
- Netlink: a set action too short for a header is refused at once; the source reads the header first and refuses it after that.
- Netlink: the arguments of an upcall action are checked by a function that is a parameter.
- BFD: demand mode, the parsing of configuration, the Ethernet, IP and UDP headers, the choice of discriminators, and logging, which recomputes the forwarding verdict on the side; a control packet is a record of its fields.
- BfdObject.Bfd.PutPacket: nothing is said about the interval fields when an interval in microseconds does not fit their 32 bits; the same for BfdPeers.HeardRates and BfdPeers.ThreeIntervals.
- BfdPeers.ComeUp: between hearing each other the two sessions only send; timers and reconfiguration in between are not covered.
- BFD: the clock is read once per operation, and a session is not destroyed and created anew with the same peer.
- Flow statistics: the time of last use, TCP flags, clearing, and the wrap-around of 64-bit counters.
- Asynchronous append: a write that the system never finishes, and short synchronous writes.
- ByteQueue.ByteQ.PutN: reading and writing file descriptors straight from the queue is not modelled.
- The rest of the repository (ports and tunnels, OpenFlow messages, the database, the controller exercises) is not part of this model.
