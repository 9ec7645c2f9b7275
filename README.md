# World Cup 2.0 core, modelled in Dafny

This project models the data-structure core of the World Cup 2.0 system, a
C++ league manager. The core has four parts.

- **Single-key AVL tree.** `Tree<N, T>` over `GenericNode` is ordered by id.
  An empty tree is one placeholder root of height −1. Insert descends by id
  and throws InvalidID when it meets the id. Remove reduces the node to a
  leaf (`make_node_leaf`): a two-children node is replaced by its in-order
  successor. `rebalance_tree` then climbs to the root, updating heights and
  balance factors and applying the LL, RR, LR and RL rotations.
- **Rank tree.** `MultiTree<T>` over `ComplexNode` is keyed by
  (ability, id). Each node caches its subtree size, which `upwardUpdate` and
  the rotations maintain. `find_index` selects by rank.
- **Union-find over players.** Players form upside-down trees. `find`
  compresses paths and folds two values on the way: an additive games
  counter and a partial spirit, which is an element of a non-commutative
  group. `players_union` hangs one team's root under the other's.
- **Team counters and the facade's helpers.** These are the team counters,
  the size and hash of the players' directory, its growth step, input
  validation, and the two folds up a player's chain of parents.

Both trees are one class, `AvlTree.Tree<T>`. Its `const ranked` selects
the `MultiTree` behaviour: the (ability, id) key and the subtree counts.

**State.**
- **Nodes.** The nodes live in an arena: a record with one map per node
  field (data, id, ability, height, bf, count, left, right, parent) and the
  next free handle. Methods rewrite that record, one field at a time, as the
  source does.
- **Ghost shape.** A ghost `shape` (a binary tree of handles) says which
  tree the pointers describe. `Valid()` ties the two together: the links
  follow the shape, keys are strictly increasing in order, and the cached
  heights, balance factors and (ranked) counts are the true ones.
- **Contents.** `Entries()` is the in-order sequence of (key, data). Every
  operation is stated against it.

**Players.** The union-find is the class `UnionFind.Players`. It holds a
`Forest` (parent, games, partial, team and other-field maps). A ghost level
map makes every parent chain finite.

**Folds.**
- `Sum` is the games counters from a player up to its root, root included.
- `Prod` is the product of the partial spirits from the root down to the
  player, ancestors on the left.

Path compression and union are proved to keep both folds for every player.

**Spirits.** `permutation_t` is an abstract group (`Spirit.Perm` with
`IsGroup`). Its strength and validity tests are uninterpreted functions.

**Teams.** `Teams.Team` keeps a ghost list of its members. Its counters are
proved to be folds over that list.

**Facade.** `WorldCup.Cup` holds the directory array of nullable bucket
pointers and the players.

## Model

| member | source | states |
|---|---|---|
| AvlTree.Tree.constructor | AVLTree.h:119-130 | a new tree is the empty placeholder: valid, no entries |
| AvlTree.Tree.EntriesSorted | AVLTree.h:192-197 | a valid tree's in-order keys are strictly increasing; by id in a Tree, by (ability, id) in a MultiTree |
| AvlTree.Tree.UpdateHeight | GenericNode.h:246-261 | height becomes the larger of the children's heights + 1, with 0 for an absent child |
| AvlTree.Tree.UpdateBf | GenericNode.h:231-241 | bf becomes left (height + 1, or 0) minus right (height + 1, or 0) |
| AvlTree.Tree.UpdateChildren | ComplexNode.h:264-275 | count becomes left count + right count + 1, an absent child counting 0 |
| AvlTree.Tree.UpdateNode | AVLTree.h:248-249 | after update_height and update_bf on a node whose children are cached, the node's subtree is cached |
| AvlTree.Tree.LLRelink | GenericNode.h:149-177 | the ll_rotation pointer writes: the new arena is the LL relinking of the old one; returns the new root only when the node was the tree root |
| AvlTree.Tree.RRRelink | GenericNode.h:182-204 | the rr_rotation pointer writes, mirrored; same return rule |
| AvlTree.Tree.LLRecountNodes | ComplexNode.h:172-173 | ll_rotation recounts the demoted node, then its new parent |
| AvlTree.Tree.RRRecountNodes | ComplexNode.h:201-202 | rr_rotation recounts the demoted node, then its new parent |
| AvlTree.Tree.LLRotation | ComplexNode.h:145-175 | the whole ll_rotation: links and (ranked) counts become LLAfter of the old arena; nothing else changes; the returned root follows the source's rule |
| AvlTree.Tree.RRRotation | ComplexNode.h:180-204 | the whole rr_rotation, as RRAfter |
| AvlTree.Tree.LRRotation | ComplexNode.h:219-224 | lr_rotation is rr_rotation on the left child, then ll_rotation on the node (LRAfter) |
| AvlTree.Tree.RLRotation | ComplexNode.h:209-214 | rl_rotation is ll_rotation on the right child, then rr_rotation on the node (RLAfter) |
| AvlTree.Tree.RotateLeftHeavy | AVLTree.h:251-258 | bf +2: LR when the left child's bf is −1, else LL; the result is the rebalanced arena; the root moves only when the node was the root |
| AvlTree.Tree.RotateRightHeavy | AVLTree.h:259-266 | bf −2: RL when the right child's bf is +1, else RR |
| AvlTree.Tree.RefreshChildren | AVLTree.h:267-286 | after a rotation, the refreshed children of the new subtree root leave a climb that can go on |
| AvlTree.Tree.Settle | AVLTree.h:267-286 | after a rotation, refreshing the children of the new subtree root keeps the tree sound, changes only heights and balance factors, and leaves a climb that can go on |
| AvlTree.Tree.Rotate | AVLTree.h:250-286 | the tree with the rotated subtree is sound, with the same in-order handles |
| AvlTree.Tree.Refresh | AVLTree.h:248-250 | after the height and bf update, the node needs no rotation exactly when its bf lies in [−1, 1] |
| AvlTree.Tree.Restore | AVLTree.h:250-287 | rotation plus refresh keep soundness and in-order sequence, and the climb invariant |
| AvlTree.Tree.Visit | AVLTree.h:244-289 | one step of rebalance_tree: the tree stays sound with the same in-order; it ends balanced and cached at the root, or climbs to a strictly smaller remaining measure |
| AvlTree.Tree.RebalanceTree | AVLTree.h:244-289 | from a node whose ancestors are the only unbalanced ones, the walk leaves a sound, balanced and cached tree with the same in-order handles; in a Tree counts do not change |
| AvlTree.Tree.Insert | AVLTree.h:175-222 | InvalidID leaves the tree unchanged and implies an entry with that id; an existing key (and in a Tree an existing id) throws; otherwise the entries become InsertSorted(old, new entry); the first insert reuses the placeholder root with no allocation; the MultiTree side is AVLMultiTree.h lines 113-183 |
| AvlTree.Tree.FirstNode | AVLTree.h:177-181 | inserting into an empty tree writes the placeholder root; the entries are exactly the new one; the MultiTree side is AVLMultiTree.h lines 115-121 |
| AvlTree.Tree.Descend | AVLTree.h:184-198 | the descent meets the id only if an entry has it; otherwise it stops at a hole where the new key fits, and no entry has that key; the MultiTree side is AVLMultiTree.h lines 124-146 |
| AvlTree.Tree.EntriesAbsent | AVLTree.h:186-198 | a hole where the key fits means no entry has that key (in a Tree: that id) |
| AvlTree.Tree.Grow | AVLTree.h:199-215 | attaching the new node and rebalancing gives a sound, balanced, cached tree whose entries are InsertSorted of the old ones |
| AvlTree.Tree.GrowLeaf | AVLMultiTree.h:147-180 | the new leaf goes left of its parent exactly when its key is smaller; afterwards the tree with the leaf is sound, counts are recomputed up to the root, and the climb can start at the parent |
| AvlTree.Tree.GrowRebalance | AVLMultiTree.h:181 | the rebalance after insert keeps the in-order sequence and all keys and data |
| AvlTree.Tree.RecountRoot | AVLMultiTree.h:182 | the final update_children on the root of a counted tree changes nothing |
| AvlTree.Tree.UpwardUpdate | AVLMultiTree.h:372-377 | recounting from a node up its parent chain makes every count of the tree its true subtree size, and changes no other field |
| AvlTree.Tree.CutLeafNode | AVLTree.h:346-356 | the leaf case: the parent's pointer to the node becomes null (CutLeaf) |
| AvlTree.Tree.SpliceNode | AVLTree.h:358-381 | the one-child case: the child takes the node's place (Splice) and becomes the root when the node was the root |
| AvlTree.Tree.VacateSuccessor | AVLTree.h:394-410 | the successor leaves its place to its right child, unless it is the node's right child (Vacate) |
| AvlTree.Tree.ReplaceNode | AVLTree.h:411-433 | the successor takes the node's parent and children (Replace), and becomes the root when the node was the root |
| AvlTree.Tree.PromoteNode | AVLTree.h:383-434 | the two-children pointer writes are Vacate and then Replace (Promote) |
| AvlTree.Tree.ClearAndRecount | AVLMultiTree.h:279-280 | the removed node's count is set to 0 and the counts are recomputed up to the root; in a Tree nothing changes |
| AvlTree.Tree.RemoveLeaf | AVLMultiTree.h:270-282 | removing a leaf keeps the other keys and data; the in-order sequence loses exactly that node; the climb starts at its parent |
| AvlTree.Tree.SpliceOut | AVLMultiTree.h:284-311 | the one-child writes plus the recount; the climb starts at the parent, or at the child when the node was the root |
| AvlTree.Tree.RemoveOne | AVLTree.h:358-381 | removing a node with one child leaves the in-order sequence without it and a climb that can finish |
| AvlTree.Tree.Successor | AVLTree.h:383-386 | the loop reaches the left-most node of the right subtree |
| AvlTree.Tree.PromoteOut | AVLMultiTree.h:313-367 | the two-children writes plus the recount; the climb starts at the successor's old parent, or at the successor when it was the right child |
| AvlTree.Tree.RemoveTwo | AVLTree.h:383-434 | removing a node with two children leaves the in-order sequence without it and a climb that can finish |
| AvlTree.Tree.MakeNodeLeaf | AVLTree.h:343-435 | every case of make_node_leaf: in-order sequence p + [x] + q becomes p + q, keys and data are kept, and the returned node starts a climb that can finish |
| AvlTree.Tree.ResetRoot | AVLMultiTree.h:188-197 | removing the sole node resets the placeholder root in place: no entries, same root |
| AvlTree.Tree.Shrink | AVLTree.h:236-239 | make_node_leaf then rebalance_tree: sound, balanced and cached again, with the node gone from the in-order sequence |
| AvlTree.Tree.RemoveNode | AVLMultiTree.h:198-202 | removing a found node deletes exactly its entry from the sorted entries |
| AvlTree.Tree.Remove | AVLTree.h:226-240 | NodeNotFound leaves the tree unchanged; otherwise exactly one entry with that id is deleted; on an empty tree only id 0 succeeds; in a Tree it succeeds iff the id is present; in a MultiTree a present key always succeeds; a tree left empty keeps its root node, reset in place; the MultiTree side is AVLMultiTree.h lines 187-203 |
| AvlTree.Tree.HasIdHandles | AVLTree.h:302-314 | an id is in the entries iff some node of the tree carries it |
| AvlTree.Tree.SearchSpec | AVLTree.h:302-314 | search_recursively from the root succeeds iff the id is in the tree (and on an empty tree iff id is 0) |
| AvlTree.Tree.SearchSpecificId | AVLTree.h:295-298 | returns a node of the tree holding the id, or NodeNotFound; succeeds iff the id is present |
| AvlTree.Tree.SearchAndReturnData | AVLTree.h:318-328 | returns the data stored with the id, or NodeNotFound when it is absent |
| AvlTree.Tree.MultiSearchSpec | AVLMultiTree.h:221-235 | a result is a node with the id; a present (ability, id) is always found |
| AvlTree.Tree.MultiSearchSpecificId | AVLMultiTree.h:215-217 | the same, from the root of a MultiTree |
| AvlTree.Tree.MultiSearchAndReturnData | AVLMultiTree.h:209-211 | the data of an entry with that id; a present (ability, id) always returns data |
| AvlTree.Tree.FindIndexAt | AVLMultiTree.h:241-260 | for 0 <= index < size, the node at in-order position index; past the end, the last node |
| AvlTree.Tree.FindIndexEntry | AVLMultiTree.h:241-260 | find_index from the root of a non-empty MultiTree returns the entry at that rank |
| AvlTree.Tree.GetAllData | AVLTree.h:334-339 | the array's first |entries| cells hold the data in key order, and cells past the tree are untouched |
| AvlTree.Tree.EntriesData | GenericNode.h:267-275 | the in-order data of the tree are the data of its entries |
| AvlQuery.SearchRecursively | AVLTree.h:302-314 | a found node holds the id; otherwise NodeNotFound |
| AvlQuery.SearchFinds | AVLTree.h:302-314 | in a search tree by id, the descent succeeds iff some node has the id |
| AvlQuery.MultiSearch | AVLMultiTree.h:221-235 | a found node holds the id; otherwise NodeNotFound |
| AvlQuery.MultiSearchFinds | AVLMultiTree.h:221-235 | in a tree ordered by (ability, id), a node with that ability and id is found |
| AvlQuery.FindIndex | AVLMultiTree.h:241-260 | the node returned is in the subtree |
| AvlQuery.FindIndexRank | AVLMultiTree.h:241-260 | with true counts, find_index(i) is the i-th node in order, or the last node when i >= size |
| AvlQuery.DataInOrder | GenericNode.h:267-275 | the in-order data sequence has one cell per node, the data of the i-th node in order |
| AvlQuery.DataInorder | GenericNode.h:267-275 | get_data_inorder writes the subtree's data in order from index and returns index + size, leaving other cells as they were |
| AvlShape.LLKeeps | GenericNode.h:149-177 | ll_rotation keeps the in-order sequence and the set of nodes |
| AvlShape.RRKeeps | GenericNode.h:182-204 | rr_rotation keeps the in-order sequence and the set of nodes |
| AvlShape.RebalKeeps | AVLTree.h:250-266 | the rotation rebalance_tree chooses keeps order, nodes and distinctness |
| AvlShape.RebalBalanced | AVLTree.h:250-266 | a node with balanced children and bf in [−2, 2] is balanced after the chosen rotation; it is left alone when its bf is in [−1, 1]; at bf ±2 the new height is the heavier child's or one more |
| AvlShape.LeftHeavyBalanced | AVLTree.h:251-258 | bf +2: LR (left bf −1) or LL gives a balanced subtree |
| AvlShape.RightHeavyBalanced | AVLTree.h:259-266 | bf −2: RL (right bf +1) or RR gives a balanced subtree |
| AvlState.LLAfterSound | GenericNode.h:149-177 | after ll_rotation the arena describes the rotated tree, soundly, with the same keys |
| AvlState.RRAfterSound | GenericNode.h:182-204 | after rr_rotation the arena describes the rotated tree, soundly, with the same keys |
| AvlState.LRAfterSound | GenericNode.h:219-224 | lr_rotation's two steps leave the arena describing LR of the subtree |
| AvlState.RLAfterSound | GenericNode.h:209-214 | rl_rotation's two steps leave the arena describing RL of the subtree |
| AvlState.LeftHeavySound | AVLTree.h:251-258 | the bf +2 branch leaves a sound arena for the rebalanced subtree |
| AvlState.RightHeavySound | AVLTree.h:259-266 | the bf −2 branch leaves a sound arena for the rebalanced subtree |
| AvlRelink.LLRotated | GenericNode.h:149-177 | the LL pointer writes link the rotated subtree, and its parent (or the root) to it |
| AvlRelink.RRRotated | GenericNode.h:182-204 | the RR pointer writes link the rotated subtree, and its parent (or the root) to it |
| AvlRelink.LLRecount | ComplexNode.h:172-173 | recounting the two moved nodes, lower first, makes the rotated subtree counted |
| AvlRelink.RRRecount | ComplexNode.h:201-202 | the same for rr_rotation |
| AvlArena.UpdateCached | GenericNode.h:231-261 | a node with cached children and updated height and bf is cached |
| AvlArena.UpdateCounted | ComplexNode.h:264-275 | a node with counted children and updated count is counted |
| AvlArena.SortedInsert | AVLTree.h:192-197 | a key that fits the hole keeps the in-order sequence strictly increasing once inserted there |
| AvlInsert.InsertSortedAt | AVLTree.h:192-197 | a key between two runs is inserted between them |
| AvlInsert.InsertSortedPerm | AVLTree.h:199-214 | inserting adds exactly the new entry (multiset) |
| AvlInsert.InsertSortedSorted | AVLTree.h:192-197 | inserting a new key into sorted entries keeps them sorted, and is a permutation plus the entry |
| AvlInsert.SingleSound | AVLTree.h:177-181 | a lone root of height 0 (count 1) is a sound, balanced, cached tree |
| AvlInsert.FitsAbsent | AVLTree.h:186-191 | a descent that reaches null without meeting the key means no node has it (in a Tree: no node has the id) |
| AvlInsert.AttachEntries | AVLTree.h:199-214 | attaching the new node at the hole gives entries InsertSorted(old, new) |
| AvlInsert.AttachAll | AVLMultiTree.h:157-178 | the new leaf goes left iff its key is smaller; the tree is wired, ordered and counted, and can climb from the parent |
| AvlInsert.CountStep | AVLMultiTree.h:372-377 | one step of upwardUpdate extends the counted subtree by its parent |
| AvlClimb.RebalFixable | AVLTree.h:250-266 | the chosen rotation leaves a balanced subtree whose grandchildren are still cached, with the rotated node as a child of the new subtree root |
| AvlClimb.ClimbUp | AVLTree.h:288 | after a node is settled the climb goes on at its parent |
| AvlDelete.SortedDrop | AVLTree.h:236 | dropping a node keeps the in-order keys strictly increasing |
| AvlDelete.EntriesDrop | AVLTree.h:236 | dropping node x from the in-order sequence deletes exactly its entry |
| AvlDelete.RemovedSound | AVLTree.h:236-239 | the tree without the node is sound with the same keys |
| AvlDelete.LeafShape | AVLTree.h:346-356 | the leaf case leaves the links of the tree without the leaf |
| AvlDelete.LeafCounts | AVLMultiTree.h:279-280 | with the leaf's count set to 0, the siblings along the path are still counted, so upwardUpdate from the parent can recount |
| AvlDelete.OneShape | AVLTree.h:358-381 | the one-child case leaves the links of the tree with the child in the node's place |
| AvlDelete.OneCounts | AVLMultiTree.h:292-308 | with the node's count set to 0, the child's subtrees and the siblings along the path are still counted, so upwardUpdate from the child can recount |
| AvlDelete.SuccessorIn | AVLTree.h:383-386 | the successor is the first node in order of the right subtree |
| AvlDelete.TwoShape | AVLTree.h:383-434 | the two-children case leaves the links of the tree with the successor in the node's place |
| AvlDelete.TwoIn | AVLTree.h:383-434 | that tree has the old in-order sequence without the node |
| AvlDelete.TwoCounts | AVLMultiTree.h:341-366 | with the node's count set to 0, the successor's right subtree and the siblings along the new path are still counted, so upwardUpdate can recount |
| AvlDelete.TwoRecounted | AVLMultiTree.h:341-367 | after the writes and the recount, the tree is sound, with the same keys and data, and the climb can start at the returned node |
| AvlDelete.ClimbFromSlot | AVLTree.h:389-393 | a climb from the successor's old place can finish |
| AvlRemove.Locate | AVLTree.h:235 | the node found has a path from the root to it |
| AvlRemove.CutLeafLinked | AVLTree.h:346-356 | the leaf case's writes link the tree without the leaf |
| AvlRemove.SpliceLinked | AVLTree.h:358-381 | the one-child writes link the tree with the child in place |
| AvlRemove.PromoteNearLinked | AVLTree.h:388-433 | successor = right child: the writes link the tree with the successor in place |
| AvlRemove.PromoteDeepLinked | AVLTree.h:388-433 | successor deeper: the writes link the tree with the successor in place and its right child in its old slot |
| UnionFind.Root | Player.cpp:134-141 | every chain of parents ends at a root |
| UnionFind.SumAbove | Player.cpp:116-123 | a player's games fold is the part above the root plus the root's counter |
| UnionFind.ProdLow | Player.cpp:125-132 | a player's spirit fold is the root's partial times the part below the root |
| UnionFind.AddGamesSum | Player.cpp:88-91 | adding g to one counter adds g to the games fold of exactly the players below it |
| UnionFind.DetachKicksOut | Player.cpp:81-84 | detaching a root's team marks exactly the players of that root as kicked out |
| UnionFind.FindRanked | Player.cpp:134-141 | path compression keeps parent chains finite |
| UnionFind.FindRoots | Player.cpp:134-141 | path compression keeps every player's root |
| UnionFind.FindSums | Player.cpp:116-123 | path compression with find_update_games keeps every player's games fold |
| UnionFind.FindProds | Player.cpp:125-132 | path compression with find_update_partial_spirit keeps every player's spirit fold |
| UnionFind.RootOnPath | Player.cpp:107-114 | the root is on the path from a player |
| UnionFind.ParentsAsWrittenLoops | Player.cpp:134-141 | as written, find_update_parents on a non-root leaves the player as its own parent, so no ranking survives |
| UnionFind.UnionRoot | Player.cpp:143-171 | null iff either team is empty; else the larger team's root (the current team on a tie) |
| UnionFind.UnitePartialAsWritten | Player.cpp:162-166 | line 165 as written: the bought root's partial is computed from the buyer root's partial |
| UnionFind.UnitePartialAsWrittenWrong | Player.cpp:165 | as written, the bought team's spirit fold comes out right iff the two roots' partials are equal |
| UnionFind.UniteCases | Player.cpp:151-170 | the two branches of players_union: which root is hung, and the counter and partial rewrites |
| UnionFind.UniteRanked | Player.cpp:153 | hanging one root under the other keeps chains finite |
| UnionFind.UniteRoots | Player.cpp:153 | after the union, the players of the hung root have the other root; all others keep theirs |
| UnionFind.UniteSums | Player.cpp:158 | the union keeps every player's games fold |
| UnionFind.UniteProds | Player.cpp:155-156 | the union left-multiplies the spirit fold of the bought team's players by the buyer's spirit; all others are kept |
| UnionFind.Players.constructor | Player.cpp:5-16 | no players yet |
| UnionFind.Players.NewPlayer | Player.cpp:5-16 | a new player at a fresh handle with the given fields and parent |
| UnionFind.Players.UpdateGamesPlayed | Player.cpp:88-91 | adds to the player's games counter only |
| UnionFind.Players.UpdateCards | Player.cpp:94-97 | adds to the player's cards only |
| UnionFind.Players.UpdateTeam | Player.cpp:100-103 | sets the player's team only |
| UnionFind.Players.Detach | Player.cpp:81-84 | clears the player's team only |
| UnionFind.Players.FindUpdateGames | Player.cpp:116-123 | returns the fold above the root; every path node's counter becomes its own fold above the root (GamesAfter) |
| UnionFind.Players.FindUpdatePartialSpirit | Player.cpp:125-132 | returns the product below the root; every path node below the root's child gets its product below the root (PartialAfter) |
| UnionFind.Players.FindUpdateParents | Player.cpp:134-141 | returns the root, and every path node's parent becomes the root (the corrected version) |
| UnionFind.Players.Find | Player.cpp:107-114 | no change for a root or a root's child; otherwise the three rewrites together, which keep both folds and all roots |
| UnionFind.Players.PlayersUnion | Player.cpp:143-171 | returns UnionRoot and the forest becomes Unite of the old one (with the corrected line 165) |
| UnionFind.Players.Hang | Player.cpp:153-158 | hangs one root under the other, with the given partial and the counter reduced by the new parent's |
| UnionFind.GamesStep | Player.cpp:121-122 | one recursion step of find_update_games |
| UnionFind.PartialStep | Player.cpp:130-131 | one recursion step of find_update_partial_spirit |
| UnionFind.ParentsStep | Player.cpp:139-140 | one recursion step of find_update_parents, as documented |
| Spirit.Cancel | Player.cpp:156 | an inverse on the left cancels |
| Teams.UniteFolds | Teams.cpp:136-146 | the spirit of the joined member lists is teams_unite's three-case result; ability and goalkeepers add |
| Teams.KeepersSome | Teams.cpp:91-96 | the goalkeeper count is at least 1 iff some member is a goalkeeper |
| Teams.Team.constructor | Teams.cpp:5-14 | zero counters, identity spirit, no players, the given id |
| Teams.Team.Blank | Teams.cpp:17-26 | the same with id 0 |
| Teams.Team.GetScore | Teams.cpp:77-79 | points plus the members' total ability |
| Teams.Team.GetSpiritStrength | Teams.cpp:81-83 | the strength of the members' composed spirit |
| Teams.Team.IsValid | Teams.cpp:91-96 | true iff some member is a goalkeeper |
| Teams.Team.AddGame | Teams.cpp:98-100 | games + 1, nothing else changes |
| Teams.Team.UpdatePointsWon | Teams.cpp:102-104 | points + 3, nothing else changes |
| Teams.Team.UpdatePointsTie | Teams.cpp:106-108 | points + 1, nothing else changes |
| Teams.Team.SetPlayers | Teams.cpp:87-89 | sets the team's player root only |
| Teams.Team.AddPlayer | Teams.cpp:118-131 | the member is appended; spirit is the player's spirit for the first player, else composed on the right; count, ability and goalkeepers follow |
| Teams.Team.TeamsUnite | Teams.cpp:135-147 | member lists are joined; spirit by the three cases; counters add; games reset to 0 |
| WorldCup.Pow2 | worldcup23a2.cpp:262-269 | the doubling loop's value is at least 1, and even from 1 on |
| WorldCup.CalculateHashSize | worldcup23a2.cpp:262-269 | returns 2^index − 1 (2^0 − 1 for index <= 0), an odd positive size for index >= 1 |
| WorldCup.HashSizeStep | worldcup23a2.cpp:272-275 | the next size is twice the current plus one |
| WorldCup.CppRem | worldcup23a2.cpp:314-317 | C++ `%`: the remainder takes the dividend's sign, lies within the divisor, and differs from it by a multiple |
| WorldCup.AddPlayerInput | worldcup23a2.cpp:45-47 | INVALID_INPUT iff an id is non-positive, a count is negative or the spirit is invalid |
| WorldCup.Cup.constructor | worldcup23a2.cpp:3-13 | no players, hash index 3, seven null buckets |
| WorldCup.Cup.HashFunction | worldcup23a2.cpp:314-317 | the id's C++ remainder by the bucket count; a bucket index for every id >= 0 |
| WorldCup.Cup.EnlargeHashTable | worldcup23a2.cpp:272-296 | a fresh larger table of size 2^(index+1) − 1; old buckets stay at their index, new ones are null, the old table is cleared |
| WorldCup.Cup.GrowIfFull | worldcup23a2.cpp:78-88 | the table grows by one step (and the index moves on) exactly when players + 1 equals the size; otherwise nothing changes |
| WorldCup.Cup.CheckPlayerKickedOut | worldcup23a2.cpp:244-259 | true iff the player's root has no team |
| WorldCup.Cup.AddPlayerCards | worldcup23a2.cpp:147-165 | INVALID_INPUT first; FAILURE when absent or kicked out; otherwise adds the cards to that player only |
| WorldCup.Cup.GetPlayerCards | worldcup23a2.cpp:167-184 | INVALID_INPUT, FAILURE when absent, else the player's cards |
| WorldCup.Cup.GetPartialSpirit | worldcup23a2.cpp:198-220 | INVALID_INPUT, FAILURE when absent or kicked out, else the chain product from the root down to the player |
| WorldCup.Cup.ChainSpirit | worldcup23a2.cpp:214-218 | the loop computes the product of the partials from the root down to the player |
| WorldCup.Cup.ChainGamesAsWritten | worldcup23a2.cpp:138-143 | the loop sums the chain's counters, root included, and ends with a null player, which line 143 dereferences |
| WorldCup.Cup.NumPlayedGames | worldcup23a2.cpp:122-145 | INVALID_INPUT, FAILURE when absent, else the chain sum plus the games of the root's team (the corrected line 143) |
| WorldCup.GlueStep | worldcup23a2.cpp:215-218 | one loop step of get_partial_spirit keeps the product it will return |

## Left out

- AvlTree.Tree.FindIndexAt: requires index >= 0. With a negative index, find_index still takes the left branch at a leaf (0 > index) and recurses into a null left child, which dereferences null (AVLMultiTree.h:243-247).
- AvlQuery.FindIndex: requires index >= 0, for the same reason.
- AvlQuery.FindIndexRank: requires index >= 0, for the same reason.
- UnionFind.Players.PlayersUnion: requires two distinct roots. With otherTeam == this, players_union hangs a root under itself (Player.cpp:153 and 163), which loses the forest's roots.
- WorldCup.Cup.AddPlayerCards: takes the directory lookup's result as `found` and reports FAILURE when it is None. The source's check_player_exists calls the bucket's tree through a null pointer when the bucket was never created (worldcup23a2.cpp:233-235; buckets start null at lines 10-12).
- WorldCup.Cup.GetPlayerCards: the same lookup replacement and FAILURE for an absent player.
- WorldCup.Cup.GetPartialSpirit: the same lookup replacement and FAILURE for an absent player.
- WorldCup.Cup.NumPlayedGames: the same lookup replacement and FAILURE for an absent player.
- WorldCup.Cup.NumPlayedGames: a root with no team adds 0 games. This is a modelling choice; the source has no such case.
- WorldCup.Cup.CheckPlayerKickedOut: requires the player to be present. After a caught NodeNotFound the source walks from an uninitialised tmpPlayer (worldcup23a2.cpp:247-252).
- WorldCup.CalculateHashSize: integers are unbounded. The C++ `int` overflows from index 31 on.
- UnionFind.Players.UpdateGamesPlayed: the games counters (and the cards, ability, points and team counters elsewhere) are unbounded integers; 32-bit overflow is not modelled.
- The hash directory lookup itself: check_player_exists, insert_player_hash_table and the per-bucket search are not modelled; the player operations take the handle it finds.
- add_player past its input check, apart from its table-growth step (WorldCup.Cup.GrowIfFull), is not modelled: it does not compile as written (`.` on pointers, undeclared `parent` and `player_num_games`, three-argument remove/insert at lines 101 and 106).
- enlarge_hash_table's `new_size` is read as the `newSize` declared the line before. Existing players are not rehashed into the larger table, so lookups are not claimed to survive growth.
- The TODO stubs add_team, remove_team, play_match, get_team_points, get_ith_pointless_ability and buy_team are not modelled; they return constants.
- destroy_tree, erase_data, the destructors, `delete` of removed nodes and the std::bad_alloc paths are not modelled: a removed node simply leaves the tree's shape, and allocation never fails.
- Node.h and Exception.h are not part of this model: the placeholder's height −1, id 0 and null data, and the InvalidID and NodeNotFound exceptions, are inferred from their use; the exceptions are result values.
- wet2util.h is not part of this model: permutation_t is an abstract group, and its strength and isvalid are uninterpreted.
- The getters of Player and Team, Team::update_players (the same write as set_teamPlayers) and the commented-out Team assignment operator have no logic of their own and are not modelled separately.
- Aliasing between the directory's trees and the players is not modelled: the directory array holds opaque bucket pointers.

## Findings

| source | as written | input that shows it | evidently intended | confidence | as-written member | corrected member |
|---|---|---|---|---|---|---|
| Player.cpp:134-141 | at a root, find_update_parents returns `this` (the player find started from), so every node on the path gets that player as its parent, including the player itself | chain c → b → a with a the root; find on c leaves c's parent as c and b's parent as c | every path node's parent becomes the root, and the root is returned (Player.h:138-142) | not executed | UnionFind.ParentsAsWrittenLoops | UnionFind.Players.FindUpdateParents |
| Player.cpp:165 | when the current team is smaller, the other root's partial becomes `currentTeamSpirit * m_partialSpirit`, the current root's own partial | two roots a (1 player) and b (2 players) whose partials differ; the bought team's players end with the wrong spirit product | `currentTeamSpirit * otherTeam->m_partialSpirit`, the mirror of line 155 | not executed | UnionFind.UnitePartialAsWrittenWrong | UnionFind.UniteProds |
| worldcup23a2.cpp:143 | the loop at lines 139-142 stops only when tmpPlayer is null, and line 143 then calls `tmpPlayer->get_team()` | any present player, for example a root | the chain sum plus the games of the root's team | not executed | WorldCup.Cup.ChainGamesAsWritten | WorldCup.Cup.NumPlayedGames |
