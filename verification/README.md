# josh: verified model of history filtering

This project models the core of josh in Dafny and proves what it promises. Every file is
self-contained within the project; `dafny verify dfyconfig.toml` checks all of it.

## What is modelled

- **Objects.** Git objects are values: hashing is taken to be injective, so an id is the content it
  names, and a cycle of commits cannot exist. Whether an object can be read is a separate set.
- **Commit walks** (`RevWalk.dfy`, `RangeWalk.dfy`). The explicit-stack depth-first walk and the two
  strategies of the range walk, with their node tables, flags, heap and counters, against recursive
  definitions and reachability.
- **History simplification** (`Filtering.dfy`, `Simplifying.dfy`, `Memo.dfy`, `Waiting.dfy`,
  `Requests.dfy`, `StuckCalls.dfy`). What a filter does to a commit and its parents, the memoised walk that applies it to
  a history, and the loop that repeats such walks for what came up missing until the commit is filtered.
- **Pushing** (`Searches.dfy`, `Unapply.dfy`, `ExactRuns.dfy`, `MergedTrees.dfy`, `Push.dfy`,
  `SubdirLens.dfy`, `SubdirPushes.dfy`). The searches for originals and the replay of pushed commits onto
  the unfiltered history, under two laws for putting trees back; the laws are then proved for `:/path`.
- **Persisted filters** (`ByteOrder.dfy`, `LazyRefs.dfy`, `FilterTerms.dfy`, `Persist.dfy`,
  `PersistRoundTrip.dfy`, `StoredLayout.dfy`, `Interning.dfy`, `Staging.dfy`). Encoding a filter as a
  tree, decoding it, the intern table, and the staged build that stores it.
- **Compose** (`ComposePlan.dfy`, `ComposeState.dfy`, `ComposeRun.dfy`). The dry-run planner and the
  caching scheduler it is documented to mirror. Runtime calls may fail at any point of any run.
- **Refs and globs** (`StackedRefs.dfy`, `Globs.dfy`). The names of published refs, and the component
  split and epsilon closure of glob patterns.

## Findings

- Pushing a tip that already is the image of the target, from a base two or more commits behind it,
  returns an older commit than the target (`Unapplying.StaleTip`; concrete input:
  `SubdirPushes.StalePush`). The round trip for linear pushes holds exactly outside this case
  (`Unapplying.ChainRoundTrip`).
- A pushed merge can be lost. If it carries its first parent's tree, but is replayed with another tree
  than that parent's original has, filtering the replay gives the first parent
  (`Unapplying.LostStep`; concrete input through `:/a`: `SubdirPushes.LostPush`). Whether a pushed
  commit comes back is decided by a condition on the push before the step, `Unapplying.ComesBack`,
  in both directions (`Unapplying.StepExactly`), and a whole push comes back exactly when each of its
  commits does (`ExactRuns.RunExactly`). `Unapplying.Plain` is a sufficient condition on the pushed
  commit alone.
- With linear history, filtering another commit after a failed call can go on for ever
  (`StuckCalls.Round`; concrete run: `StuckCalls.FailThenAsk`): the failed call leaves its requests
  behind, and the loop walks the newest request again and again, although that one waits for an older
  request. Without such leftovers, and for the same commit again, the loop ends
  (`Memo.FilterCache.ApplyToCommit`).
- A starlark or tree-id filter can be stored but never read back
  (`PersistRoundTrip.ScriptComesBack`): writing puts the filter into a one-entry list, and reading
  decodes the list itself.
- A lazy reference comes back only without quotes, apostrophes, backslashes and control characters
  (`LazyRefs.PrintedParses`).
- `:prefix=` loses what a push adds beside the prefix (`SubdirLens.PrefixIsLens`).

## Model

| member | source | states |
|---|---|---|
| RevWalks.RevWalk.IntoTopoVec | josh-gix-ext/src/revwalk.rs:146-152 | succeeds exactly when every commit reachable along unpruned paths can be read; then yields exactly those commits, each once, children before parents, equal to the recursive reverse postorder; in first-parent mode exactly the unpruned lines of `parents[0]` from the tips; `prune` is asked at most once per commit |
| RevWalks.RevWalk.Dfs | josh-gix-ext/src/revwalk.rs:201-242 | the explicit-stack loop computes the postorder of the recursive definition `Walk`, and on a break or an unreadable commit a prefix of it; the visits are the preorder up to the first commit that stops the walk, and `prune` is asked in the recursive order |
| RevWalks.RevWalk.Discover | josh-gix-ext/src/revwalk.rs:157-165 | streams the recursive preorder and stops at the first break, error or unreadable commit, and nowhere else |
| RevWalks.RevWalk.Push | josh-gix-ext/src/revwalk.rs:132-137 | a tip is accepted exactly when it names a readable commit, and comes after the earlier tips |
| RevWalks.RevWalk.Parse | josh-gix-ext/src/revwalk.rs:183-195 | after a successful parse the node's parents denote the commit's parents, and no other node changed meaning |
| RevWalks.WalkTidy | josh-gix-ext/src/revwalk.rs:87-92 | the recursive walk asks, visits and finishes every commit at most once and asks about no commit seen before |
| RevWalks.WalkReaches | josh-gix-ext/src/revwalk.rs:87-92 | whatever the walk visits is reachable along an unpruned path |
| RevWalks.WalkParentsFirst | josh-gix-ext/src/revwalk.rs:95-101 | in the postorder every followed parent comes before its child, for every rule and every set already seen |
| RevWalks.TopoOrderReaches | josh-gix-ext/src/revwalk.rs:87-94 | yield set: reachable along unpruned paths, in both directions |
| RevWalks.TopoOrderTopological | josh-gix-ext/src/revwalk.rs:95-101 | yield order: distinct, every child before its followed parents |
| RevWalks.FirstParentYield | josh-gix-ext/src/revwalk.rs:229-236 | in first-parent mode a commit is reached exactly when it is on the unpruned line of first parents of a tip; the line is defined by `parents[0]` alone |
| RevWalks.TipsInOrder | josh-gix-ext/src/revwalk.rs:95-101 | what the first tips reach is visited before, and yielded after, everything that only later tips reach, for any number of tips and any rule |
| RevWalks.TipThenParents | josh-gix-ext/src/revwalk.rs:201-242 | a walk from one commit is the commit and then the walk from its parents in parent order, or from its first parent only |
| RangeWalks.RangeWalk.IntoTopoVec | josh-gix-ext/src/revwalk.rs:321-338 | whichever strategy runs, the result is exactly the commits reachable from tip and not from base, each once, children before parents; an error means that some commit that can be reached could not be read or ranked; no sequence number is looked up twice; a readable chain within the budget succeeds without a single lookup, whatever lies below the base |
| RangeWalks.RangeWalk.FastForwardWalk | josh-gix-ext/src/revwalk.rs:376-397 | a readable single-parent chain that meets the base within the budget is always returned, and what is returned is the exact range; no sequence number is looked up, and the node table is left as the ranked walk expects it |
| RangeWalks.RangeWalk.RankedWalk | josh-gix-ext/src/revwalk.rs:402-463 | the heap-driven walk returns the exact range in topological order; in success and failure alike each commit has its sequence number looked up at most once, and only ancestors of tip or base do |
| RangeWalks.RangeWalk.Touch | josh-gix-ext/src/revwalk.rs:430-442 | pushing or hiding a parent keeps flags, heap and the count of visible entries in step with the abstract frontier |
| RangeWalks.RangeWalk.Pop | josh-gix-ext/src/revwalk.rs:420-446 | the popped commit has the highest sequence number of all that are queued, and the count of visible entries stays exact |
| RangeWalks.RangeWalk.Advance | josh-gix-ext/src/revwalk.rs:420-460 | one round keeps the frontier ordered and moves exactly one commit from queued to done |
| RangeWalks.ChainIsRange | josh-gix-ext/src/revwalk.rs:274-280 | a single-parent chain from tip to base is exactly the range, because the base is below every member |
| RangeWalks.MarkArrives | josh-gix-ext/src/revwalk.rs:281-285 | hidden marks arrive before the pop: what is below a hidden ranked commit is hidden by the time it is highest |
| RangeWalks.PopKeepsOrder | josh-gix-ext/src/revwalk.rs:281-289 | every pop keeps the invariant of the ranked walk and moves exactly the popped commit from queued to done, for every history and numbering |
| RangeWalks.PopKeepsExplored | josh-gix-ext/src/revwalk.rs:281-288 | a pop ranks only ancestors of tip or base, ranks all parents of what is popped, and passes hidden marks on |
| RangeWalks.StartIsOrdered | josh-gix-ext/src/revwalk.rs:402-419 | tip and base queued, with the base hidden, satisfy that invariant |
| RangeWalks.OnlyHiddenLeft | josh-gix-ext/src/revwalk.rs:285-289 | once only hidden entries are queued, the output is the exact range |
| Filtering.CreateFilteredCommit | josh-core/src/history.rs:796-900 | the parent-list edits compute the result of the case definition; a new commit has the filtered tree and the original's metadata, anything else is nothing or one of the parents' images; the definition itself is pinned by `Simplifying.ImageOutcome` and `Simplifying.RootOutcome` |
| Filtering.SelectParentCommits | josh-core/src/history.rs:711-735 | the parents are kept unless all of them have the filtered tree and the original changed something |
| Filtering.KeepParents | josh-core/src/history.rs:803-840 | the loop and the truncation compute the kept parents of the case definition, which `Simplifying.KeptAre` and `Simplifying.LinearKept` pin: a subsequence of the images, and for linear history the first survivor |
| Filtering.FilterCommitCases | josh-core/src/history.rs:796-900 | every outcome is nothing, a parent's image, or a new commit over parents' images, and in each case it has the filtered tree |
| Filtering.ContentPreserved | josh-core/src/history.rs:711-735 | simplification never changes content: the tree of the image is the filtered tree, dropped commits and elided merges included |
| Filtering.WrittenFromParents | josh-core/src/history.rs:862-899 | every parent of a newly written commit is the image of a parent of the original |
| Filtering.AncestorsAreImages | josh-core/src/history.rs:796-900 | every ancestor of an image is the image of an ancestor |
| Filtering.ImageNotDeeper | josh-core/src/history.rs:796-900 | filtering never lengthens history |
| Filtering.IdentityImage | josh-core/src/history.rs:810-880 | with the identity and no options a commit is its own image exactly when no merge below it mixes empty and non-empty parents of disjoint roots |
| Filtering.RebuiltImage | josh-core/src/history.rs:796-900 | a commit rebuilt over originals filters back to the given commit exactly when none of the elision rules fires; the rules are spelled out |
| Filtering.LostMerge | josh-core/src/history.rs:842-880 | a merge whose parents are kept and to which a rule applies filters to its first parent |
| Filtering.ImagesAreCommits | josh-core/src/history.rs:796-900 | everything below an image is a commit |
| Simplifying.KeptAre | josh-core/src/history.rs:803-840 | without linear history the kept parents are exactly the images that survive, in their order: those that are not zero and, where filled and empty parents of disjoint roots meet, not empty |
| Simplifying.LinearKept | josh-core/src/history.rs:836-840 | linear history keeps the first survivor and nothing else, and nothing when there is none |
| Simplifying.MixedIsDivided | josh-core/src/history.rs:810-835 | the pruning rule fires exactly when an empty and a non-empty parent are there and no root is below both kinds |
| Simplifying.EmptyRootHasNoFile | josh-core/src/history.rs:920-960 | a tree counts as empty exactly when no path leads to a file |
| Simplifying.ImageOutcome | josh-core/src/history.rs:796-900 | a commit with a surviving parent gives way to the first survivor exactly when one of the elision rules, spelled out on trees and parents, applies; otherwise it is rewritten with its own tree and metadata on exactly the survivors |
| Simplifying.RootOutcome | josh-core/src/history.rs:869-880 | a commit without a surviving parent becomes a root, or nothing if its filtered tree is empty and it was not an empty root itself |
| Simplifying.LinearParent | josh-core/src/history.rs:836-899 | in linear history a rewritten commit has one parent: the image of its first parent that survives |
| Memo.FilterCache.ApplyToCommit | josh-core/src/filter/mod.rs:357-386 | from any state without linear history, and with it whenever all requests are on the way from the commit to what it waits for, the retry loop ends: it returns the image of the commit, keeps every remembered result right, learns only what is below the commit or an earlier request, never a commit before its parents, and fails only where such a commit cannot be read; a failed call can be repeated, and after success nothing is left requested for linear history |
| Memo.FilterCache.WalkMissing | josh-core/src/filter/mod.rs:370-384 | a round learns something, or requests something deeper than all that was requested before |
| Memo.FilterCache.WalkAll | josh-core/src/filter/mod.rs:378-384 | walking the requests of a level one after the other keeps the requests in order and learns something unless each walk got stuck further down |
| Memo.FilterCache.GetMissing | josh-core/src/cache/transaction.rs:875-888 | requests for what is known by now are dropped, the others keep their levels, and the batch is exactly those of the highest level |
| Memo.FilterCache.Walk2 | josh-core/src/history.rs:17-65 | remembered results stay right and grow by distinct commits below the input only, parents first; without linear history the input is known afterwards; with it, the walk may get stuck at the end of the unknown first-parent line, and then requests that commit and the first parent it waits for; an ancestor-closed memo stays closed |
| Memo.FilterCache.FillMemo | josh-core/src/history.rs:49-58 | the back-to-front loop records right results for a suffix of the list, all of it when every parent is known or later in the list, and otherwise stops at a commit that waits |
| Memo.FilterCache.ApplyToCommit2 | josh-core/src/filter/mod.rs:1106-1126 | gives the commit's image, fails exactly when an unknown commit cannot be read, and has no result exactly when a parent has none; then the commit and its first unknown parent are requested |
| Memo.FilterCache.ListUnknown | josh-core/src/history.rs:28-44 | lists unknown readable commits below the input: with all parents, each with every unknown parent behind it; along first parents, the line down to a known one |
| Memo.WalkIsReady | josh-core/src/history.rs:42-44 | a walk pruned at known commits finds every parent known or processed before its child |
| Requests.QueueStuck | josh-core/src/cache/transaction.rs:894-908 | a walk that gets stuck keeps the requests in order: all on the one path of commits that wait for each other, and what is waited for on a higher level, or next to whoever waits for it on the same |
| Requests.QueueGrows | josh-core/src/filter/mod.rs:365-385 | learning commits after their parents keeps that order |
| Requests.LowestIsHighest | josh-core/src/filter/mod.rs:372-384 | the deepest request is always on the level that is walked next |
| Requests.StuckChangesNothing | josh-core/src/cache/transaction.rs:894-908 | a stuck walk changes nothing exactly when it got stuck at and for commits that were requested before |
| StuckCalls.Round | josh-core/src/filter/mod.rs:364-385 | a round for a commit that came up last and waits for an older request learns nothing and leads to the same situation, whatever else is requested |
| StuckCalls.FailThenAsk | josh-core/src/filter/mod.rs:364-385 | a concrete history, for every linear filter: the rounds of a call that fails on an unreadable commit, and the first round of a call for another commit, which ends in that situation |
| Searches.FindUnapplyBase | josh-core/src/history.rs:67-157 | refines the plain search: the cached answer, else the first commit in preorder from the hint whose image is the target, else zero; the cache afterwards is given exactly |
| Searches.Discovered | josh-core/src/history.rs:118-145 | a callback for a commit that is not unlocked only remembers it; otherwise it answers with a match among the pending commits or leaves none of them unlocked, having rejected all it removed and unlocked their parents; with nothing pending it decides at once |
| Searches.SearchBase | josh-core/src/history.rs:109-157 | streaming the history with the match test as callback gives the first match in preorder |
| Searches.CallbackAgrees | josh-core/src/history.rs:113-145 | in every run of the search the stateful callback answers each call just as the plain match test does |
| Searches.FirstMatchIsFirst | josh-core/src/history.rs:97-157 | the search returns the first match of the list and nothing else |
| Searches.FoundIffOld | josh-core/src/history.rs:97-157 | the search is non-zero exactly when some commit in the hint's history has the image, and then returns such a commit |
| Searches.SearchKeepsCache | josh-core/src/history.rs:109-157 | a search keeps every cached pair right and forgets none |
| Searches.FindOriginal | josh-core/src/history.rs:160-195 | non-zero exactly when some commit of the searched history has the image, which is the whole history or, for linear history, the line of first parents; then the first, in walk order, that does not merely inherit it from a single parent |
| Searches.OwnMatchExists | josh-core/src/history.rs:180-190 | following inherited results down single parents ends at a commit that does not inherit |
| Searches.FindOldestSimilar | josh-core/src/history.rs:298-322 | the last commit of the initial stretch of the walk that has the same image; fails exactly when the history is incomplete |
| Searches.LastOfRun | josh-core/src/history.rs:311-321 | the loop stops at the first commit with another image and returns the one before it, or the last |
| Searches.FindNewBranchBase | josh-core/src/history.rs:324-358 | the first commit of the pushed history that is an image of the target's history; what is remembered for it is the oldest similar original: where the walk from the first commit with that image stops having it; zero only if there is none; fails exactly when the pushed history is incomplete |
| Searches.SearchFirstSeen | josh-core/src/history.rs:97-157 | with nothing remembered but the target, a search gives the first commit in preorder that has the image |
| Pushing.UnapplyFilter | josh-core/src/history.rs:368-709 | under the lens laws, with a base that is an image of the target's history and a new tip, filtering the result gives exactly the pushed tip if every commit in between comes back, and plain ones do; when the target's own image is not pushed and no root is moved, only then; the tip is put onto one commit or onto nothing, or as a merge gets the tree that `MergedTrees.GivenTree` gives it on its parents; a new branch starts at the newest pushed commit with an original, for which the oldest similar one stands, and pushing that commit returns it; pushing the old tip again gives the first original that is not just like its single parent; pushing something strictly below the base leaves the target; a linear push on complete histories is never rejected |
| Pushing.PushedTip | josh-core/src/history.rs:422-708 | the same for the replay of any range between a tip and bases that are images, what the tip becomes included |
| Unapplying.ChainRoundTrip | josh-core/benches/unapply.rs:262-285 | for every single-parent chain of new commits the replay succeeds, and its image is the pushed tip exactly unless that tip already is the target's image and more than one commit is replayed |
| Unapplying.StaleTip | josh-core/src/history.rs:449-458 | the failing family: such a push returns a commit whose image is the one before the pushed tip |
| Unapplying.StepExactly | josh-core/src/history.rs:449-705 | for every pushed commit whose parents have originals, root, single-parent or merge, one replayed commit filters back to it exactly when `ComesBack` says so of the push and what is remembered |
| Unapplying.LostStep | josh-core/src/history.rs:842-880 | the failing family: a merge that keeps its parents and does not come back filters to its first parent |
| Unapplying.PlainComesBack | josh-core/src/history.rs:449-705 | a commit that is neither a moved root nor a merge that looks trivial comes back whatever is remembered |
| Unapplying.StepRoundTrip | josh-core/src/history.rs:449-705 | a replayed commit that comes back has the pushed metadata, sits on originals of its parents, and keeps the cache right |
| Unapplying.RunRoundTrip | josh-core/src/history.rs:449-708 | over a whole run of commits that come back the cache stays right and knows every replayed commit, and the last result filters to the last commit |
| ExactRuns.RunExactly | josh-core/src/history.rs:449-708 | a run of new commits, listed parents first and all below the last, filters back to the last one exactly when every commit of it comes back in its turn |
| ExactRuns.SpoiledStep | josh-core/src/history.rs:449-705 | a commit built on one that did not come back does not come back either |
| Unapplying.NeverCollapses | josh-core/src/history.rs:692-702 | under the lens laws the collapse-to-parent branch is never taken |
| Unapplying.PickedFilters | josh-core/src/history.rs:566-678 | whichever tree is picked among parents or merges, it filters to the pushed tree |
| Unapplying.OriginalsFound | josh-core/src/history.rs:486-514 | every resolvable parent list is mapped to originals whose images are that list |
| MergedTrees.MergeReplayed | josh-core/src/history.rs:566-678 | a pushed commit with two or more originals becomes the commit with its metadata on those originals and the given tree: the one candidate, or the one put back onto the first original above the target, or the one put back onto the merge of two whichever side wins; it is rejected exactly when there is no such tree |
| MergedTrees.TwoSidedReplayed | josh-core/src/history.rs:594-675 | two originals with different candidates: the tree put back onto the one that has the target in its history, the first if both have; if neither has, the one tree put back onto both merges; rejected if the merges differ or one fails |
| MergedTrees.OneReplayed | josh-core/src/history.rs:510-704 | a pushed commit with one original, or with none and a commit to move it to, is put onto that: it becomes a commit on top with the tree put back onto its tree, or that very commit if the pushed one changed something of which nothing is left there; rejected exactly when it cannot be put back |
| MergedTrees.RootReplayed | josh-core/src/history.rs:578-592 | one without original that is not moved becomes a root with the tree put back onto the empty tree |
| MergedTrees.OrphanReplayed | josh-core/src/history.rs:460-484 | a merge of unrelated histories is rejected, loses its last parent, or is kept, as the push is told to, and in the latter cases sits on originals of exactly those parents |
| MergedTrees.OriginalsOfKnown | josh-core/src/history.rs:486-514 | the originals found filter to exactly the parents that have one, in their order |
| MergedTrees.TipTree | josh-core/src/history.rs:448-708 | whatever a run remembered on the way, its last commit becomes what it is to be: put onto one commit, put onto nothing, or a merge with the given tree |
| Pushing.ReplayCommit | josh-core/src/history.rs:454-704 | the imperative step equals the case definition `Replayed`, orphan handling, reparenting and collapse included; what the definition gives a commit is pinned by `MergedTrees.MergeReplayed`, `MergedTrees.TwoSidedReplayed`, `MergedTrees.OneReplayed` and `MergedTrees.RootReplayed` |
| Pushing.ReplayAll | josh-core/src/history.rs:448-708 | the loop, back to front, equals the fold `Run` |
| Pushing.PushedRange | josh-core/src/history.rs:422-446 | the commits to replay are exactly those between the pushed tip and the bases, children first |
| Pushing.ReplayRange | josh-core/src/history.rs:422-708 | the result is the replay of exactly that range; an empty range leaves the target |
| Unapplying.ChainRuns | josh-core/src/history.rs:460-704 | single-parent commits are always replayed when putting back is total |
| SubdirLens.SubdirIsLens | josh-core/src/filter/mod.rs:1734-1755 | for every path and all trees, filtering what was put back through `:/path` gives what was put, and putting back what is there changes nothing |
| SubdirLens.SubtractClears | josh-core/src/filter/tree.rs:654-715 | subtracting what the filter sees of a tree leaves no tree at the path |
| SubdirLens.OverlayShows | josh-core/src/filter/tree.rs:1026-1088 | what is laid over such a place is what is found there |
| SubdirLens.OverlayRestores | josh-core/src/filter/tree.rs:1026-1088 | laying a directory over the tree it was subtracted from restores the tree |
| SubdirLens.PrefixNests | josh-core/src/filter/tree.rs:852-893 | inserting into the empty tree from the innermost directory outwards builds exactly the chain of directories |
| SubdirLens.PrefixIsLens | josh-core/src/filter/mod.rs:1544-1553 | `:prefix=` gives back what was put exactly for trees that live below the prefix |
| SubdirLens.PrefixLosesNeighbours | josh-core/src/filter/mod.rs:1544-1553 | a pushed file next to the prefix is lost |
| SubdirPushes.StalePush | josh-core/src/history.rs:449-458 | a concrete line of commits through `:/a`: the target's own image, pushed from two commits behind, comes back as the commit before it |
| SubdirPushes.LostPush | josh-core/src/history.rs:566-678 | a concrete merge through `:/a`, pushed onto the image of the target: it brings a side commit with it, its replay succeeds, and what is seen of the result is the side commit |
| SubdirLens.PutKeepsBeside | josh-core/src/filter/tree.rs:1026-1088 | putting back through `:/path` leaves what is beside the path as it was, in every directory on the way |
| SubdirPushes.SubdirPush | josh-core/src/filter/mod.rs:1734-1755 | a push through `:/path` meets the laws the push theorems ask for, and putting back is total |
| SubdirPushes.MergeKeepsBeside | josh-core/src/history.rs:594-675 | through `:/path`, beside the path, in every directory on the way, a replayed merge has what the original above the target has there, or what both merges of the originals have there |
| ComposePlan.Planner.CollectJobs | josh-compose/src/plan.rs:54-73 | the job list is the plan: exactly the demanded workspaces, each once, inputs first; with reliable queries it succeeds exactly when all that is demanded can be read; with the cache ignored it has every input of its members |
| ComposePlan.Planner.WalkJobs | josh-compose/src/plan.rs:124-159 | the recursive walk over mutable lists equals the functional plan from any state |
| ComposePlan.Planner.CollectImages | josh-compose/src/plan.rs:23-44 | the image list has no duplicates, every base before its users, and is exactly what the demanded jobs use; with reliable queries it succeeds exactly when the jobs and all their images can be read |
| ComposePlan.Planner.WalkImages | josh-compose/src/plan.rs:75-122 | visits the same workspaces as the job plan and adds exactly their images |
| ComposePlan.Planner.CollectImage | josh-compose/src/plan.rs:185-206 | adds exactly the image's base closure; fails exactly when some base, however deep, is no tree id |
| ComposePlan.JobPlanSound | josh-compose/src/plan.rs:124-159 | every planned job is new, not skipped, listed once and after its inputs, from any state of the walk |
| ComposePlan.PlanIsDemand | josh-compose/src/plan.rs:124-159 | from scratch the plan is exactly the set of workspaces above no skipped one |
| ComposePlan.PlanExists | josh-compose/src/plan.rs:124-159 | there is a plan exactly when everything that is demanded can be read |
| ComposeRun.Session.RunSession | josh-compose/src/container.rs:78-289 | an Ok run with writable results recorded exactly the job plan of the starting cache state, in order, and ran exactly the commands of those workspaces that have one, in that order; each was called with the outputs of its inputs and all its sidecars; nothing enters the successes without a command that ended with 0 or no command at all; in a runtime where nothing fails, the session succeeds exactly when every demanded workspace can be read, has its inputs, has its images and exits with 0; in every run each step executes at most once, only demanded workspaces are attempted, only their images are built, untouched ones keep their results; with reliable queries even a failing run attempts the whole plan; sidecars and scratch artifacts are gone |
| ComposeRun.PlanThenRun | josh-compose/src/plan.rs:13-73 | planning and then running from the same state: the plan is what is recorded and its commands are what is run, in order; it is what is attempted, and covers what is built |
| ComposeRun.Session.RunContainer | josh-compose/src/container.rs:78-289 | the recursive step of the above, for any workspace, at any point of a session |
| ComposeRun.Session.RunInputs | josh-compose/src/container.rs:115-151 | all inputs are attempted although some fail, and on success the outputs handed on are exactly those of the inputs that have one, in order, and are there |
| ComposeRun.Session.RunStep | josh-compose/src/container.rs:153-289 | a successful step with a command ran it once and saw exit code 0, recorded it and has its output; one without a command runs nothing; in a runtime that is up it succeeds exactly when its images can be had and the exit code is 0; it changes no other workspace's result or output, builds only its images, and stops what it started on every exit |
| ComposeRun.Session.EnsureImage | josh-compose/src/image.rs:14-62 | builds only missing members of the base closure, each once, never without its bases, and on success the image is there |
| ComposeRun.Session.StartSidecars | josh-compose/src/container.rs:182-207 | a sidecar that fails to start takes the started ones down |
| ComposeRun.Session.PrepareStep | josh-compose/src/container.rs:153-207 | on success the image is there and all sidecars run; it builds only what the step uses, and in a runtime that is up it succeeds exactly when these images can be had |
| ComposeState.SessionWorks | josh-compose/src/container.rs:78-289 | in a runtime where nothing goes wrong, a session succeeds exactly when everything that is demanded works, by what holds before it starts |
| ComposeState.AllTried | josh-compose/src/container.rs:115-151 | a run that attempts every legible input it meets attempts exactly the plan |
| PersistRoundTrip.StoredComesBack | josh-filter/src/persist.rs:762-1331 | for every filter, decoding its stored tree gives exactly `Normal`: lists read in place shuffled, references reparsed, default arms reset, and an error where decoding fails |
| PersistRoundTrip.RoundTrip | josh-filter/src/persist.rs:343-571 | a filter is read back unchanged if it is faithful and, unless a list read in place has more than ten members, only then |
| PersistRoundTrip.FaithfulComesBack | josh-filter/src/persist.rs:343-571 | faithful filters are fixed by `Normal` |
| PersistRoundTrip.OnlyFaithfulComesBack | josh-filter/src/persist.rs:762-1331 | without long lists nothing else is |
| PersistRoundTrip.ComposeComesBack | josh-filter/src/persist.rs:1064-1074 | composed filters come back in the byte order of their decimal indices, and differently once the third and the eleventh differ |
| PersistRoundTrip.ScriptComesBack | josh-filter/src/persist.rs:1001-1063 | starlark and tree-id filters are never read back: the list around the filter is decoded instead of the filter |
| PersistRoundTrip.MetaComesBack | josh-filter/src/persist.rs:1298-1328 | attributes come back as they were, unless one is called `0`, which hides the filter and fails |
| PersistRoundTrip.SquashKeepsOnly | josh-filter/src/persist.rs:1226-1256 | a squash map keeps its keys only if all of them are printable |
| PersistRoundTrip.SquashCollects | josh-filter/src/persist.rs:1226-1256 | a squash map does not depend on the order its entries are read in |
| PersistRoundTrip.ArmsParse | josh-filter/src/persist.rs:1161-1203 | match arms are read back exactly when references are printable and default arms have the zero reference |
| PersistRoundTrip.DecodedWellFormed | josh-filter/src/persist.rs:762-1331 | whatever can be read, from any object, is a well-formed filter |
| StoredLayout.FlagsStored | josh-filter/src/persist.rs:346-566 | what an operation without parameters is stored as: an entry with its name and a fixed blob |
| StoredLayout.TextStored | josh-filter/src/persist.rs:346-566 | what `:/a` and `:prefix=a` are stored as |
| StoredLayout.TwoTextsStored | josh-filter/src/persist.rs:346-566 | what operations on two texts are stored as |
| StoredLayout.ListsStored | josh-filter/src/persist.rs:346-566 | what a composition and a chain of two filters are stored as |
| StoredLayout.SubtractStored | josh-filter/src/persist.rs:346-566 | what a subtraction is stored as |
| StoredLayout.OneStored | josh-filter/src/persist.rs:346-566 | what an exclusion and a pin are stored as |
| StoredLayout.UnapplyStored | josh-filter/src/persist.rs:346-566 | what a filter under a reference is stored as |
| StoredLayout.ArmStored | josh-filter/src/persist.rs:346-566 | what a match arm is stored as, with the sign of its kind before the reference |
| StoredLayout.InsertStored | josh-filter/src/persist.rs:346-566 | what an insertion by id is stored as: path and object |
| StoredLayout.MetaStored | josh-filter/src/persist.rs:346-566 | what a filter with an attribute is stored as |
| LazyRefs.PrintedParses | josh-filter/src/op.rs:85-107 | a printed reference parses back exactly when a name has no quote of either kind, no backslash and no control character |
| LazyRefs.ReadBackShrinks | josh-filter/src/op.rs:94-107 | any other name is read back shorter, if at all |
| LazyRefs.QuotedReads | josh-filter/src/op.rs:94-99 | whatever is written as a JSON string, with the escapes of section 7 of RFC 8259, is read back |
| LazyRefs.SurrogatesRead | josh-filter/src/op.rs:94-99 | an escaped surrogate pair is read as the one character it stands for |
| LazyRefs.IdsRead | josh-filter/src/op.rs:101-105 | hexadecimal digits of either case are read as an id with the same value, padded with zeros |
| ByteOrder.FewStayInOrder | josh-filter/src/persist.rs:135-166 | up to ten indexed entries are stored in their own order |
| ByteOrder.EleventhBecomesThird | josh-filter/src/persist.rs:135-166 | beyond ten, the eleventh entry is stored third |
| ByteOrder.ShuffledIs | josh-filter/src/persist.rs:135-166 | storing by index moves entries by a permutation that depends on their number only |
| FilterTerms.TitleTells | josh-filter/src/persist.rs:346-566 | no two operations are stored under the same name |
| Interning.SameNode | josh-filter/src/persist.rs:574-614 | two filters are the same node exactly when they unfold to the same term; sentinels are like no other filter |
| Interning.UnfoldStable | josh-filter/src/persist.rs:574-592 | interning more does not change what a filter means |
| Interning.InternTable.ToFilter | josh-filter/src/persist.rs:577-592 | returns the one node of an operation, keeps the table consistent, and adds a node only when there was none |
| Interning.InternTable.NewSentinel | josh-filter/src/persist.rs:603-614 | a sentinel is a new node that the table does not know |
| Interning.InternTable.FromTree | josh-filter/src/persist.rs:758-760 | reads exactly what decodes; read from what a faithful filter of the table is stored as, it is that very node |
| Staging.AsTree | josh-filter/src/persist.rs:650-664 | fails exactly when an inserted object is missing; otherwise returns the tree the filter is read from, which differs from its id exactly when something is inserted by id; nothing is lost, nothing but trees of the filter and the empty blob is added, and from a closed store everything reachable is there |
| Staging.Builder.BuildPersist | josh-filter/src/persist.rs:623-647 | the memoised bottom-up build gives every node the tree to store, stages nothing but trees of the filter, and keeps the store closed when there is no sentinel below |
| Staging.Builder.Flush | josh-gix-ext/src/lib.rs:485-499 | the sink gains exactly what was staged, in whatever order |
| Staging.StoredElsewhere | josh-filter/src/persist.rs:616-622 | a filter with an insertion by id is stored under another id, however deep the insertion |
| Staging.StoredUnderId | josh-filter/src/persist.rs:616-622 | any other filter is stored under its id |
| StackedRefs.RefParses | josh-changes/src/refs.rs:125-168 | in the full, remote-tracking and bare spelling a ref is read back exactly when the target has no `@`, the author is one segment with an `@`, and a change has an id |
| StackedRefs.ParsedPrints | josh-changes/src/refs.rs:107-168 | printing a parsed `refs/heads/` name restores it, a stack head up to one trailing slash |
| StackedRefs.SplitTargetAuthor | josh-changes/src/refs.rs:174-193 | the segment loop equals splitting around the first `@` |
| StackedRefs.SplitUnique | josh-changes/src/refs.rs:170-193 | there is one way to split a name |
| StackedRefs.ChangesToRefs | josh-changes/src/stacked.rs:52-111 | succeeds exactly when the author has an `@` and their changes are readable and have ids of their own without an `@`, or none; the refs are then exactly a change ref at each labelled commit and a base ref at its first parent, under distinct names |
| StackedRefs.BuildToPush | josh-changes/src/stacked.rs:121-141 | a published stack is strictly sorted by name and has exactly the refs of the changes, pointing at the commits and their first parents, and the stack head, pointing at the tip |
| StackedRefs.RefsExactly | josh-changes/src/stacked.rs:75-108 | the refs of a stack are those of its labelled changes and no others |
| StackedRefs.NamesSpelled | josh-changes/src/refs.rs:107-123 | how the three kinds of names are spelled |
| Globs.SplitRejoins | josh-filter/src/pattern.rs:65-96 | joining the components gives the tokens back exactly when every `**` stands at the start, behind a separator or behind another `**` |
| Globs.SplitComponents | josh-filter/src/pattern.rs:74-96 | the growing vector of vectors equals the recursive split, trailing component dropped; no component has a separator, or anything behind a `**` |
| Globs.TrimmedAreSplit | josh-filter/src/pattern.rs:74-96 | the components that are handed on have no separators, and `**` only at their end |
| Globs.Closure | josh-filter/src/pattern.rs:135-148 | one ascending pass reaches the least fixpoint, matches the same names as its input, and stays below bit 64 for up to 63 components |
| Globs.SuffixAllStar | josh-filter/src/pattern.rs:114-121 | the array filled from the back says from which positions on the empty rest is accepted |

## Left out

- Three-way merges, merge bases and the test for a common ancestor are parameters of the push: any
  tree or failure may come out of a merge.
- The bodies of tree filters other than `:/path` and `:prefix=` are an arbitrary function on trees;
  filters that resolve per commit (`:rev`, workspaces, hooks, links, starlark) are not applied.
- File modes of tree entries: an entry is a blob, a submodule link or a tree.
- Commit messages, signatures and other headers are one opaque string.
- Filtering fails only on an incomplete history; other input/output errors of the object store are
  not modelled.
- Requests for other filters than the one applied: chains, nested filters and squashed commits.
- Memo.FilterCache.ApplyToCommit: for linear history it is entered with all requests on the way from the
  commit to what it waits for, as after any success or after a failed call for the same commit. From
  other states a call may never end (`StuckCalls.FailThenAsk`); which of them do is not decided beyond
  one walk (`Requests.StuckChangesNothing`).
- The persistent caches behind a transaction: the memo is a map, and sequence numbers are a function
  that grows from parent to child together with a predicate for failed lookups.
- The 64-bit width of sequence numbers and arrival counters.
- Callbacks of the walks are functions of the commit, not closures with state; the state that
  `find_unapply_base` keeps in its closure is modelled in `Searches.Discovered`, and
  `Searches.CallbackAgrees` shows that it does not change the answers.
- The filter language and its parser.
- Regular expressions and glob patterns inside filters are their source text and taken to compile
  again; paths are texts in UTF-8 and compared as such.
- A NUL in an attribute name, which the tree writer refuses.
- Surrounding white space in references given to the parser: printed references have none.
- The memo cell of a filter's id: ids are a function of the filter.
- Output extraction, logs, environment variables and network settings of compose steps beyond
  whether they fail; input names, which only become mount paths.
- A failed compose step can leave an older success marker in place; nothing is claimed about which
  marker a re-run of a workspace that lost its output finds.
- Bit operations on the state mask of a glob: a mask is the set of its bits, with the bound stated.
- Matching a name against a single glob component is an arbitrary predicate.
- `refs/for` and draft handling of pushed ref names, and votes, comments and revisions of changes.
- Staging.AsTree: stores the filter it is given; the source optimizes it first
  (`josh-filter/src/persist.rs`, line 654), and the optimizer is not part of this model.
- Pushing.UnapplyFilter: that every commit must come back is claimed for pushes that neither contain
  the target's own image, which the first search remembers and the replay then skips, nor move a root
  onto another commit, whose history may already look like what is pushed.
