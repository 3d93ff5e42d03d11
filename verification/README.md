# A verified model of the helpers that walk, extract, tear down and sweep

Most of the repository wraps one remote call per method. Four places run loops over remote
or shared state, where a call may fail half way, other clients may interfere and a second
run has to cope with what the first left. This project models those four in Dafny and
proves what they keep. `dafny verify dfyconfig.toml` checks all of it.

## What is modelled

**Keycloak groups** (`Sequences`, `Forest`, `Pagination`, `GroupWalk`, `WalkSafety`,
`LoneWalk`, `Retries`, `Interleaving`, `Progress`, `Slashes`, `GroupPath`, `GroupHelper`). A realm
is a sequence of nodes in the server's listing order. The server gives fresh ids, refuses a second sibling of
the same name, and answers a page request with that slice of the current listing. A
`World` is a forest together with what is still to happen around each call: creates by
other clients, at any place of the listing, and a fault, which may drop the request or lose
the reply of a call that took effect. All results quantify over every such world. `GroupWalk`
states the two walks as a machine that makes one remote call per step, so that many walks
can be interleaved; `GroupHelper` holds the helper's own loops, and each of its methods is
proved to make exactly the calls of that machine. The page loop is one generic method, since
the source's three copies differ only in the types of the elements and the parameters.

**Zip extraction** (`CleanPath`, `ZipGuard`, `Extraction`). Cleaning and joining are a stack
machine over the components between slashes. What a path means is given independently, as
the place it leads to from a working directory when each part is followed one after the
other, and the guard is compared with that meaning. The file system is a class over a map
from places to contents whose calls fail when something is in the way or for reasons of their
own, and then partly.

**VPC teardown** (`VpcPlan`, `VpcTheorems`, `VpcTeardown`). An account is the set of gateways,
tables, associations, access lists, subnets and interfaces by owner. The server's rules
refuse to delete an attached gateway, a subnet with interfaces, a main association, a default
list and a VPC with dependents. The plan of a teardown is a list of calls; the four loops,
in which any call may fail with or without effect, are proved to issue an initial run of it.

**Kubernetes bulk edits** (`RoleBindings`, `StorageClasses`, `DefaultClassRace`). Role bindings
and storage classes are maps; the role-binding client is a field that the sweep reassigns, as
in the source. `DefaultClassRace` lets any number of callers switch the default class at once.

`Wrappers`, `Sequences` and `Listings` hold what the others share.

## What the proofs show about the code

These are properties one might expect that do not hold. The model keeps the code as it is,
gives an input on which the property fails and the exact condition under which it holds.

- The extraction guard means "strictly inside the destination" exactly if the cleaned
  destination ends in a proper name. For `.` and `/` it refuses every entry; for a destination
  of double dots only it accepts entries that climb further. See
  `ZipGuard.GuardMeansContainmentIffAnchored`.
- The role-binding sweep lists through whatever namespace the helper's client is on and leaves
  it on the namespace of its last delete. A sweep clears an account from the cluster exactly if
  the client could see all its bindings when it began, so a second sweep on the same helper may
  miss bindings. See `RoleBindings.SecondSweepMisses`, `RoleBindings.SweepClearsCluster` and, for
  any number of sweeps, `RoleBindings.SweepsClearCluster`.
- Under insertions the page loop never loses an element that was listed at the start, but it
  returns the listing exactly, and without repeating an element, exactly if nothing is inserted
  between two fetches in front of what has been read. See `Pagination.InsertionCanRepeat` and
  `Pagination.ReadExactlyIffUndisturbed`.
- A teardown leaves a gateway behind for good exactly if it fails between detaching and deleting
  it, since the listing filters by attachment: one gateway per such failure. See
  `VpcTheorems.LeakedExactly`, `VpcTheorems.ResumedTeardown` and
  `VpcTeardown.FailuresThenSuccess`.
- Switching the default class leaves exactly one default when callers do not overlap. Callers of
  existing classes that race and all succeed are sure to leave one exactly if they name the same
  class; otherwise they may leave several, though never none and never one that nobody named. See
  `DefaultClassRace.OneDefaultIffSameName`. A set that names a class that does not exist, after a
  disable, leaves none.

Where name and code differ the model follows the code: `getDefaultStorageClasses` returns every
class whose mark is not empty, `"false"` included, so a disabled class is patched again by the
next disable.

## Assumptions

- Groups are only ever created, one realm is looked at, ids grow with creation, and a foreign
  create appears at any place of the listing but listed groups keep their order.
- A listing reply is complete and shows one moment; each remote call is one atomic step.
- During a teardown, a sweep or a lone switch of the default class nobody else changes the
  account or the cluster (races are the subject of `Interleaving` and `DefaultClassRace`). Every
  listing of one account or cluster uses one fixed order.
- Every role binding lies in a named namespace, as Kubernetes requires.
- A remote or file system call that fails for reasons of its own is counted in the ghost field
  `faults` of its class, so that a method can promise what happens when none does; with
  `reliable` set, none ever does.
- The ghost results of methods (`n`, `done`, `issued`) name the calls made; the code has no such
  result.

## Model

| member | source | states |
|---|---|---|
| `Pagination.Paginate` | pkg/keycloak/keycloak.go:472-495 | The one loop behind all three paginators (the copies at 525-548 and 700-723 differ only in types). With a maximum given it makes that single call unchanged; otherwise it makes exactly a run of fetches for the same search at offsets 0, 100, 200, ... with 100 as maximum, in which every page but the last is full, and returns the concatenation, or the first error. The server need only answer pages of the search asked for, so a loop that dropped the search would not terminate or return anything in particular |
| `Pagination.FixedListingReadWhole` | pkg/keycloak/keycloak.go:472-495 | A listing of any length that stands still is returned whole and in order with length / 100 + 1 fetches, exact multiples of 100 included |
| `Pagination.AppendedListingReadExactly` | pkg/keycloak/keycloak.go:472-495 | While elements are only appended between fetches, the result is the listing exactly as it stood at the last fetch, so nothing is missing or repeated |
| `Pagination.InsertedListingReadCompletely` | pkg/keycloak/keycloak.go:472-495 | Whatever is inserted between fetches, and at whatever position, every element listed at the start is returned, and only elements listed at the end |
| `Pagination.InsertionCanRepeat` | pkg/keycloak/keycloak.go:472-495 | The failing input for reading exactly: one insertion at the front between two fetches returns an old element twice and the new one not at all |
| `Pagination.ReadExactlyIffUndisturbed` | pkg/keycloak/keycloak.go:472-495 | The exact condition: while elements are inserted anywhere into a listing without duplicates, the result is the listing as it stood at the last fetch, and is free of duplicates, if and only if nothing was inserted between two fetches in front of what had been read |
| `Pagination.DisturbedRepeats` | pkg/keycloak/keycloak.go:480-494 | At the first such insertion the last element read so far is read again behind it, so the result has it twice |
| `Pagination.UndisturbedReadsFront` | pkg/keycloak/keycloak.go:480-494 | Undisturbed full pages have read exactly the front of the listing as it stands |
| `Pagination.AheadStaysAhead` | pkg/keycloak/keycloak.go:480-494 | An element not yet read stays at or behind the read offset under any insertions |
| `Pagination.FullPagesArePrefix` | pkg/keycloak/keycloak.go:480-494 | After n full pages of an append-only listing exactly its first 100 n elements have been read |
| `Forest.LocateExact` | pkg/keycloak/keycloak.go:593-603 | Following names level by level by listing and first match finds a node if and only if the forest stores a chain of nodes, each below the one before, that carry those names |
| `Forest.NamePathOnce` | pkg/keycloak/keycloak.go:638-643 | In a forest whose server refuses duplicate siblings no name path leads to two nodes |
| `Forest.ChildExact` | pkg/keycloak/keycloak.go:628-635 | The first sibling of a name in a listing is the one stored child of that name |
| `Forest.FirstNamedSound` | pkg/keycloak/keycloak.go:629-633 | The scan of a listing returns a member of that name, and nothing exactly when no member has it; a member without a name never matches |
| `Forest.LocateStable` | pkg/keycloak/keycloak.go:593-603 | No growth of the forest changes where an existing name path leads |
| `Forest.LocateInjective` | pkg/keycloak/keycloak.go:593-603 | Two different name paths never lead to the same node |
| `Forest.ExistingPrefixExact` | pkg/keycloak/keycloak.go:593-603 | The existing part of a name path is an initial run of its names: the first k names lead somewhere if and only if k is at most the existing prefix |
| `Forest.LocatePath` | pkg/keycloak/keycloak.go:677-680 | If every stored path is its parent's path, a slash and its name, a node's stored path is exactly the names that lead to it, each after a slash |
| `Forest.CreateKeeps` | pkg/keycloak/keycloak.go:661-681 | Every create, granted or refused, keeps ids distinct, sibling names unique, parents stored and older than their children, and paths spelled, and removes nothing |
| `Forest.CreateAt` | pkg/keycloak/keycloak.go:661-681 | A create below the node a name path leads to is refused if and only if the name is taken there, refusal changes nothing, and what is stored on success is the very group the helper builds locally |
| `Forest.CreateEffect` | pkg/keycloak/keycloak.go:661-681 | Such a create makes exactly one more name path exist and moves no other |
| `WalkSafety.WalkSurvivesGrowth` | pkg/keycloak/keycloak.go:589-622 | Creates by other clients at any moment keep everything a walk in progress knows |
| `WalkSafety.PagingInv` | pkg/keycloak/keycloak.go:624-636 | The top-level lookup keeps its knowledge over every page, whatever is created between pages |
| `WalkSafety.CreateReply` | pkg/keycloak/keycloak.go:661-681 | A create that answers stored the node the walk takes it for; a refused duplicate left the forest alone and shows that the next level now exists |
| `WalkSafety.ServedInv` | pkg/keycloak/keycloak.go:589-681 | One remote call with any fault keeps the invariant of the walk |
| `WalkSafety.RunInv` | pkg/keycloak/keycloak.go:589-681 | The invariant holds after any number of calls, in every world of faults and foreign creates |
| `WalkSafety.WalkReturnsTheNode` | pkg/keycloak/keycloak.go:589-622 | At every moment the walk holds the node for the names it has consumed; a finished walk holds the node of the whole path, under the path its names spell; reported absence means the path did not exist when the walk began |
| `WalkSafety.RefusedRunGrowsPrefix` | pkg/keycloak/keycloak.go:589-606 | A run that ends in a refused duplicate leaves the existing prefix of its path grown past the level at which it failed |
| `WalkSafety.RefusedAttemptsBounded` | pkg/keycloak/keycloak.go:589-606 | Consecutive attempts that each end in a refused duplicate are at most as many as there are names, so one attempt more cannot be refused |
| `Retries.LostReplyIsStored` | pkg/keycloak/keycloak.go:661-681 | A create whose reply is lost is stored although the walk breaks with an error; one whose request is lost changes nothing |
| `Retries.DeliveredBreaksOnlyByConflict` | pkg/keycloak/keycloak.go:624-681 | A remote call that is delivered breaks a walk only if it is a create whose name exists by now |
| `Retries.FaultlessWalkBreaksOnlyByConflict` | pkg/keycloak/keycloak.go:589-622 | Whatever others create, find-or-create all of whose calls are delivered fails only by a refused duplicate, and the find walk never |
| `Retries.RetriesSucceed` | pkg/keycloak/keycloak.go:589-606 | Of |names| + 1 consecutive finished attempts whose calls are delivered, at least one succeeds, however others race them |
| `LoneWalk.ChainGrows` | pkg/keycloak/keycloak.go:597-602 | Creating the first missing name of a path is granted and lengthens the chain of new nodes by one |
| `LoneWalk.RunAlone` | pkg/keycloak/keycloak.go:589-681 | With no other creator, at every point of a run, whatever calls fail, the forest is the initial one plus an initial run of the missing nodes, and a duplicate is never refused |
| `LoneWalk.CreatesCounted` | pkg/keycloak/keycloak.go:597-602 | Every create call of a lone walk adds one node, except perhaps a last one that failed |
| `LoneWalk.FindOrCreateEffect` | pkg/keycloak/keycloak.go:589-606 | Find-or-create adds one node for each name after the longest existing prefix and nothing else, with exactly that many create calls; where it breaks off, a create that took effect but reported an error included, it has added an initial run of them |
| `LoneWalk.ResumedRunCatchesUp` | pkg/keycloak/keycloak.go:589-606 | After a run cut off at any call, a later finished run has the same number of nodes and the same name paths as a run that was never disturbed |
| `LoneWalk.FindIsExact` | pkg/keycloak/keycloak.go:608-622 | The find walk changes nothing, reports a node only of a path that exists and absence only of one that does not, and fails only by a fault |
| `LoneWalk.ExistingPathUntouched` | pkg/keycloak/keycloak.go:589-622 | On a path that exists both walks change nothing and return its node |
| `LoneWalk.SecondWalkAgrees` | pkg/keycloak/keycloak.go:589-622 | After find-or-create, a later find and a second find-or-create return the same group and change nothing |
| `LoneWalk.WalkEnds` | pkg/keycloak/keycloak.go:589-659 | Every walk ends after finitely many calls in every world of finitely many foreign creates and faults |
| `LoneWalk.FindOrCreateCompletes` | pkg/keycloak/keycloak.go:589-606 | Undisturbed and without faults find-or-create finishes with the whole path in place |
| `Interleaving.EveryTurnCounts` | pkg/keycloak/keycloak.go:589-622 | Whenever an unfinished walk gets its turn, whichever it is, its call is served and its reply handled; only a finished walk stands still |
| `Interleaving.ReachableIsSafe` | pkg/keycloak/keycloak.go:589-681 | For any number of walks of both kinds and any foreign creates, interleaved call by call with any faults: every reachable forest is well formed and every walk holds the node for the names it has consumed |
| `Interleaving.FinishedWalkersAgree` | pkg/keycloak/keycloak.go:589-681 | Any two walks that finish on the same names hold the same group, the only node at that name path |
| `Interleaving.WalkerRunsInAWorld` | pkg/keycloak/keycloak.go:589-681 | Each walk of an interleaved run is a run of that walk alone in a world whose turns carry the others' creates, so every result about one walk holds of each of many |
| `Interleaving.NewPathsAccounted` | pkg/keycloak/keycloak.go:589-681 | Every name path an interleaved run adds appears in one move: a foreign create, or a call of a find-or-create walk whose names begin with it |
| `Interleaving.OnlyOwnPaths` | pkg/keycloak/keycloak.go:589-681 | Without foreign creates, every name path added is an initial run of the names of some find-or-create walk |
| `Interleaving.DeliveredWalkLosesOnlyRaces` | pkg/keycloak/keycloak.go:589-681 | While every call is delivered, a walk among others breaks only by a refused duplicate, and a find walk not at all |
| `Progress.ForestSize` | pkg/keycloak/keycloak.go:597-602 | However walks interleave, the forest never holds more than the initial nodes, one for each foreign create and one for each name a walk has consumed or broken at |
| `Progress.CallDescends` | pkg/keycloak/keycloak.go:589-659 | Every call of a walk brings its end closer, whatever the reply |
| `Progress.EnoughTurnsFinish` | pkg/keycloak/keycloak.go:589-622 | In every interleaving with any faults, a walk that gets a number of turns fixed by the initial forest, the foreign creates and the names of all walks has finished |
| `Progress.FinishedFromAnywhere` | pkg/keycloak/keycloak.go:589-622 | From every reachable state, a continuation that gives every walk enough turns ends with all of them finished; if all calls are delivered, each find-or-create walk is done or has lost a race and each find walk is done or has found nothing |
| `Progress.AllCanFinish` | pkg/keycloak/keycloak.go:589-622 | From every reachable state there is a continuation by delivered calls alone that ends with every walk finished; if the calls so far were delivered too, each find-or-create walk then holds its group or was refused a duplicate, and each find walk has its answer |
| `Slashes.SplitJoin` | pkg/keycloak/keycloak.go:571 | Splitting joined slash-free pieces gives the pieces back |
| `Slashes.JoinSplit` | pkg/keycloak/keycloak.go:571 | Joining what splitting gave gives the string back |
| `GroupPath.PrintThenParse` | pkg/keycloak/keycloak.go:570-579 | Joined non-empty slash-free names with any number of leading and trailing slashes parse to exactly those names |
| `GroupPath.ParseAcceptsExactly` | pkg/keycloak/keycloak.go:570-579 | A path is accepted with a list of names if and only if it is such names joined, with slashes around; the list is then unique and expressible |
| `GroupPath.ResultPathParses` | pkg/keycloak/keycloak.go:570-579 | The path of a walk's result, parsed, gives the names that lead to it |
| `GroupPath.SlashNamesNeedSegments` | pkg/keycloak/keycloak.go:581-588 | A name with a slash in it is never among the names a path parses to, so only the segment form reaches it |
| `GroupHelper.TopLevelIsPaged` | pkg/keycloak/keycloak.go:497-503 | The realm serves its top level by pages and only ever inserts into it, so the pagination theorems apply to the top-level lookup |
| `GroupHelper.TopLevelReadExactly` | pkg/keycloak/keycloak.go:497-503 | The top level of a realm is read exactly as it stands at the last page if and only if no group was created meanwhile in front of what had been read |
| `GroupHelper.PagedLookupIsRun` | pkg/keycloak/keycloak.go:624-636 | The page loop followed by the scan makes exactly the walk's calls and leaves the walk where its lookup of a top-level name does |
| `GroupHelper.FindKept` | pkg/keycloak/keycloak.go:608-622 | What the find walk promises of its result and its effect holds of every run, in every world |
| `GroupHelper.FindOrCreateKept` | pkg/keycloak/keycloak.go:589-606 | What find-or-create promises of its result and its effect holds of every run, in every world |
| `GroupHelper.Helper.Send` | pkg/keycloak/keycloak.go:644-649 | One remote call of the helper is one atomic step of the world |
| `GroupHelper.Helper.GetGroups` | pkg/keycloak/keycloak.go:497-503 | The top-level listing through the page loop: the run of fetches, or the single call when a maximum is given |
| `GroupHelper.Helper.FirstGroupNamed` | pkg/keycloak/keycloak.go:629-633 | The loop over a listing returns its first member of that name, or nil |
| `GroupHelper.Helper.FindChildGroup` | pkg/keycloak/keycloak.go:624-659 | A lookup below a parent, or at the top level, is exactly the walk's lookup; an absent list of sub-groups reads as no children |
| `GroupHelper.Helper.CreateChildGroup` | pkg/keycloak/keycloak.go:661-681 | One create call; the group returned carries the new id, the name and the parent's path extended by it |
| `GroupHelper.Helper.GetOrCreateGroupPathSegments` | pkg/keycloak/keycloak.go:589-606 | The loop makes exactly the calls of the walk, hence: the result is the node of the path; alone, the forest gains exactly an initial run of the missing nodes, all of them on success; a refused duplicate means the path has grown; without faults it fails only so, and alone it succeeds |
| `GroupHelper.Helper.FindGroupPathSegments` | pkg/keycloak/keycloak.go:608-622 | The loop makes exactly the calls of the find walk, hence: never writes, returns the node of the path, and nil only if the path did not exist when it began; without faults it never fails, and alone its answer is exact |
| `GroupHelper.Helper.GetOrCreateGroupPath` | pkg/keycloak/keycloak.go:570-579 | A path with an empty segment is refused before any call; otherwise it does what the segment form does on the parsed names |
| `CleanPath.ComponentsNormal` | pkg/zip/zip.go:20-21 | Cleaning ends in normal form: double dots only in front and only in a relative path, then proper names |
| `CleanPath.FoldNormalIsSame` | pkg/zip/zip.go:20-21 | Components in normal form clean to themselves |
| `CleanPath.RenderComponents` | pkg/zip/zip.go:20-21 | Printing normal components and taking the result apart gives the components back |
| `CleanPath.CleanIdempotent` | pkg/zip/zip.go:20-21 | Cleaning twice is cleaning once |
| `CleanPath.CleanKeepsMeaning` | pkg/zip/zip.go:20-21 | From every working directory a cleaned path leads where the path led, its parts followed one after the other |
| `CleanPath.ResolveByComponents` | pkg/zip/zip.go:20-21 | Where a path leads is decided by its cleaned components alone |
| `CleanPath.WalkIsFold` | pkg/zip/zip.go:20-21 | Following the parts of a path one after the other in the tree ends where the lexical fold does |
| `CleanPath.JoinFolds` | pkg/zip/zip.go:20 | Joining a destination and a name continues the cleaning of the destination with the parts of the name |
| `ZipGuard.JoinKeepsMeaning` | pkg/zip/zip.go:20 | A joined path leads where the name leads when followed from the place of the destination; an empty destination is ignored |
| `ZipGuard.JoinPrefix` | pkg/zip/zip.go:21 | A joined list followed by a slash is a string prefix of another joined list if and only if the first list is a strict prefix of the second |
| `ZipGuard.GuardIsComponentPrefix` | pkg/zip/zip.go:20-23 | For every destination that does not clean to "." or "/", the string guard accepts an entry if and only if the cleaned components of the destination are a strict prefix of those of the joined path |
| `ZipGuard.GuardRefusesDotAndRoot` | pkg/zip/zip.go:20-23 | For "." and "/" the guard refuses every entry |
| `ZipGuard.GuardExactWhenAnchored` | pkg/zip/zip.go:20-23 | For a destination whose cleaned form ends in a proper name, the guard accepts an entry if and only if from every working directory it leads strictly below the destination |
| `ZipGuard.PlainNameRefused` | pkg/zip/zip.go:20-23 | The failing input for "." and "/": a plain name is refused although it stays inside |
| `ZipGuard.ClimbingNameAccepted` | pkg/zip/zip.go:20-23 | The failing input for a destination of double dots only: an entry that climbs one level further is accepted although it leads outside |
| `ZipGuard.GuardMeansContainmentIffAnchored` | pkg/zip/zip.go:20-23 | The guard means containment for all entries if and only if the cleaned destination ends in a proper name |
| `Extraction.FileSystem.MkdirAll` | pkg/zip/zip.go:26-33 | Makes a directory and all that is missing on the way; fails if a file stands there, or for reasons of its own, and then leaves an initial run of them |
| `Extraction.FileSystem.OpenTruncated` | pkg/zip/zip.go:43-47 | Creates or empties a file in an existing directory; fails, changing nothing, if there is no such directory or a directory is in its place, or for reasons of its own |
| `Extraction.FileSystem.Copy` | pkg/zip/zip.go:49 | Writes the data; a failure leaves a beginning of it |
| `Extraction.DirOfAccepted` | pkg/zip/zip.go:33 | The directory made for an accepted entry is the one its last name lies in, and the entry lies strictly below the destination |
| `Extraction.DecompressFromTo` | pkg/zip/zip.go:12-58 | For every destination: on success every entry passed the guard with nothing in its way and the tree is the entries extracted in order; a refused entry is the first one that fails the guard and everything before it is extracted; any other error comes at an entry that cannot be read, has a file or directory of the tree in its way or met a call that failed for reasons of its own, with everything before it extracted and a part of it at most. Hence without such failures it succeeds if and only if every entry is accepted, readable and unobstructed. Nothing disappears and nothing turns from file to directory or back. Below a destination that ends in a proper name each file written lies strictly below it and each directory made is below it, at it or above it. For "." and "/" nothing is ever extracted |
| `Extraction.LeftMeans` | pkg/zip/zip.go:19-57 | What each way of ending implies for the tree: nothing lost, confinement, success without failures exactly for faultless entries |
| `Extraction.PartContained` | pkg/zip/zip.go:20-55 | Whatever part of an accepted entry is extracted stays inside a destination that ends in a proper name, but for directories on the way to it |
| `Extraction.ExtractAllExact` | pkg/zip/zip.go:19-57 | After a success every place holds the data of the last regular entry for it, else what was there, else a directory some entry needed; nothing else exists |
| `Extraction.GoodExactly` | pkg/zip/zip.go:19-57 | Below a destination that ends in a proper name, whatever the tree, the entries can all be extracted if and only if each leads strictly below the destination and can be read, finds no file of the tree where it needs a directory and no directory where it needs a file, and no regular entry lies where another needs a directory; their order plays no part |
| `Extraction.ExtractTwice` | pkg/zip/zip.go:19-57 | Extracting the same archive again changes nothing |
| `Extraction.ExtractAgain` | pkg/zip/zip.go:19-57 | An archive that could be extracted can be extracted again, and the tree stays as it is |
| `VpcPlan.RunIsWithout` | pkg/aws/ec2.go:115-210 | What a run of accepted calls leaves is the account without the things the calls name, whatever their order |
| `VpcTheorems.PlanTargets` | pkg/aws/ec2.go:90-210 | The plan holds a call if and only if it detaches or deletes a gateway attached to the VPC, disassociates a non-main association of its tables, deletes a non-default list, an interface in one of its subnets or a subnet of it, or deletes the VPC |
| `VpcTheorems.ClearingLegal` | pkg/aws/ec2.go:90-107 | No call before the last gives the server cause to refuse it: every gateway is detached before it is deleted and every subnet is empty when its turn comes |
| `VpcTheorems.ClearingBares` | pkg/aws/ec2.go:86-107 | When the VPC's own turn comes it has no attached gateway, no non-main association, no non-default list, no subnet and no interface in one |
| `VpcTheorems.PlanLegal` | pkg/aws/ec2.go:90-109 | The whole plan is accepted by the server, its last call included |
| `VpcTheorems.ServerRules` | pkg/aws/ec2.go:86-89 | A call the server accepts finds its target there: a gateway it deletes is detached, a subnet it deletes has no interface, a VPC it deletes is bare |
| `VpcTheorems.EveryCallInTurn` | pkg/aws/ec2.go:90-210 | At every point of the plan the next call is accepted and has not been made before; a gateway is deleted only when it is attached to nothing, a subnet only when no interface is in it, the VPC only when it is bare |
| `VpcTheorems.TeardownFrame` | pkg/aws/ec2.go:115-210 | After any initial run of the plan everything outside the VPC, every main association and every default list is unchanged |
| `VpcTheorems.CallCounts` | pkg/aws/ec2.go:115-210 | Each accepted detach, disassociate, list, interface or subnet call for the VPC takes exactly one of its dependents away; the other calls take none |
| `VpcTheorems.PlanTearsDown` | pkg/aws/ec2.go:90-109 | A teardown that runs to its end leaves exactly the account without the VPC and its dependents, in whatever order the server lists them |
| `VpcTheorems.LeakedExactly` | pkg/aws/ec2.go:124-135 | A teardown that breaks off after k calls has detached but not deleted exactly one gateway if k is odd and it was still working on the gateways, namely the gateway of that call, and none otherwise |
| `VpcTheorems.AtMostOneLeaked` | pkg/aws/ec2.go:124-135 | Hence never more than one |
| `VpcTheorems.ResumedTeardown` | pkg/aws/ec2.go:90-137 | A broken-off teardown followed by a clean one ends in the uninterrupted result with that one gateway besides, detached, which the attachment filter no longer lists; it ends in the uninterrupted result itself if and only if the first one did not stop between detaching a gateway and deleting it |
| `VpcTeardown.FailuresThenSuccess` | pkg/aws/ec2.go:90-137 | Any number of failed teardowns, whatever their last calls did, followed by one that succeeds: the account is torn down, with at most one detached gateway of the VPC besides for each failure |
| `VpcTeardown.AfterStages` | pkg/aws/ec2.go:94-105 | Each stage finds, after the stages before it, what a listing at the start would have shown |
| `VpcTeardown.LastCallPromise` | pkg/aws/ec2.go:107-108 | The last call is made on a bare VPC and completes the promise of the teardown |
| `VpcTeardown.Ec2Helper.Do` | pkg/aws/ec2.go:125-134 | A destructive call the server's rules forbid is refused without effect; any other may succeed or fail, and a failure may have taken effect |
| `VpcTeardown.Ec2Helper.DetachInternetGateways` | pkg/aws/ec2.go:115-137 | The loop works the stage's calls off in order; on an error those issued are an initial run, none was refused by the rules, and only the last may not have taken effect; an error means that a call failed for reasons of its own |
| `VpcTeardown.Ec2Helper.DisassociateRouteTables` | pkg/aws/ec2.go:139-160 | The same for the nested loop over tables and associations, main associations left out |
| `VpcTeardown.Ec2Helper.DeleteNetworkACLs` | pkg/aws/ec2.go:162-181 | The same for the access lists, the default one left out |
| `VpcTeardown.Ec2Helper.DeleteSubnets` | pkg/aws/ec2.go:183-210 | The same for the nested loop over subnets and the interfaces listed for each |
| `VpcTeardown.Ec2Helper.DeleteVpc` | pkg/aws/ec2.go:90-109 | In every run the calls issued are an initial run of the plan, all of it on success; the rules never refuse one for an existing VPC; the VPC call is the last of the whole plan and made on a bare VPC; nothing outside is touched; success leaves exactly the torn-down account; if no call fails for reasons of its own, it succeeds exactly for a VPC that exists |
| `RoleBindings.Helper.SetRoleBindingClient` | pkg/kubernetes/kubernetes.go:329-331 | Points the helper's client at one namespace for all later calls |
| `RoleBindings.Helper.List` | pkg/kubernetes/kubernetes.go:640-643 | Lists, in the server's order, the bindings the client can see: one namespace, or all of them for the empty one |
| `RoleBindings.Helper.Delete` | pkg/kubernetes/kubernetes.go:651-655 | Deletes the binding of that name in the client's namespace, fails without effect if there is none, and may fail with or without effect otherwise |
| `RoleBindings.Helper.DeleteRoleBindingsIfTheServiceAccountIsIncluded` | pkg/kubernetes/kubernetes.go:636-662 | The deletes issued are an initial run, in list order, of the visible bindings with a matching subject (pkg/kubernetes/verify.go:5-9), all of them on success; only the last may not have taken effect; none is refused as missing; the client is left on the namespace of the last one; an error means that a call failed for reasons of its own, so without one it succeeds |
| `RoleBindings.SweepExact` | pkg/kubernetes/kubernetes.go:645-659 | A successful sweep leaves exactly the bindings that do not name the account or could not be seen, each as it was, and deletes no binding twice however many subjects match |
| `RoleBindings.SweepFrame` | pkg/kubernetes/kubernetes.go:645-659 | A sweep that broke off touched only visible matching bindings, and all it issued before the last are gone |
| `RoleBindings.SweepClearsCluster` | pkg/kubernetes/kubernetes.go:636-662 | The account is out of the whole cluster if and only if the client, when the sweep began, was on all namespaces or every binding that names the account lies in the client's namespace |
| `RoleBindings.NeverLeavesNamespace` | pkg/kubernetes/kubernetes.go:651 | Once the client is on one namespace, no later run of sweeps, failed or not, leaves it or deletes anything elsewhere |
| `RoleBindings.FirstDeleteDecides` | pkg/kubernetes/kubernetes.go:651 | The first sweep that issues a delete fixes the namespace of all sweeps after it on the same helper |
| `RoleBindings.NamespaceSwept` | pkg/kubernetes/kubernetes.go:636-662 | With the client on one namespace, successful sweeps clear their accounts from that namespace and from nowhere else |
| `RoleBindings.SweepsClearCluster` | pkg/kubernetes/kubernetes.go:636-662 | Successful sweeps of any accounts through one helper, wherever its client is, clear all of them from the cluster if and only if what a caller can see beforehand holds: with the client on one namespace all their bindings lie there; with the client on all of them, the others' bindings that do not name the first account that has any lie in the namespace of its binding that is listed last |
| `RoleBindings.OnlyDeletes` | pkg/kubernetes/kubernetes.go:636-662 | Whatever fails, sweeps change no binding and add none |
| `RoleBindings.SecondSweepMisses` | pkg/kubernetes/kubernetes.go:636-662 | The failing input: two accounts bound in two namespaces, where the second sweep on the same helper deletes nothing |
| `StorageClasses.ToggleDecides` | pkg/kubernetes/options.go:58-77 | Patching a class with the toggle "true" adds it to the default classes and with "false" takes it out, either way it is marked and no other class changes; no other toggle becomes a patch |
| `StorageClasses.Helper.ListStorageClasses` | pkg/kubernetes/kubernetes.go:847-851 | The complete listing, or an error |
| `StorageClasses.Helper.GetDefaultStorageClasses` | pkg/kubernetes/kubernetes.go:811-825 | Keeps, in order, exactly the classes whose annotation "storageclass.kubernetes.io/is-default-class" is present and not empty, whatever it says |
| `StorageClasses.Helper.PatchStorageClasses` | pkg/kubernetes/kubernetes.go:827-845 | Patches the named classes in order and stops at the first failure, which is "not found" only for a class the cluster does not have |
| `StorageClasses.Helper.DisableCurrentDefaultStorageClasses` | pkg/kubernetes/kubernetes.go:865-878 | The patches issued are an initial run, in list order, of the marked classes, all of them on success; only the last may not have taken effect; none is refused as missing. A class without the annotation or with an empty one is exactly as it was however this ends, and after a success every other class says "false" and is otherwise as it was. An error means that a call failed for reasons of its own |
| `StorageClasses.DisabledOnFields` | pkg/kubernetes/kubernetes.go:865-878 | The same, class by class and on the annotation itself, for every way a disable may end |
| `StorageClasses.Helper.SetDefaultStorageClass` | pkg/kubernetes/kubernetes.go:880-900 | Marks the named class "true" and changes nothing else; fails without effect if there is no such class, and otherwise only if a call failed for reasons of its own |
| `StorageClasses.PatchedAllAt` | pkg/kubernetes/kubernetes.go:827-845 | A series of patches sets the one annotation on the named classes, whatever their order and repetition, and changes nothing else |
| `StorageClasses.ClearedSoFar` | pkg/kubernetes/kubernetes.go:865-878 | After the first k patches the first k classes of the listing are default no more and every other default class still is; the marked classes are the same, and every other annotation is untouched |
| `StorageClasses.DisablingOnlyShrinks` | pkg/kubernetes/kubernetes.go:865-878 | Each step takes exactly its own class out of the defaults; a class without the annotation or with an empty one is never touched |
| `StorageClasses.DisablingLeaves` | pkg/kubernetes/kubernetes.go:865-878 | However it ends, disabling adds no default class; a success leaves none |
| `StorageClasses.DisablingResumes` | pkg/kubernetes/kubernetes.go:865-878 | Disabling again after a failure patches the same classes and ends where an undisturbed disabling would have |
| `StorageClasses.SwitchLeavesOneDefault` | pkg/kubernetes/kubernetes.go:865-900 | From any cluster a successful disable and a successful set leave the named class as the only default, all other annotations as they were; if there is no such class the cluster is left without a default |
| `StorageClasses.BrokenDisableLeaves` | pkg/kubernetes/kubernetes.go:865-878 | A disable that broke off left exactly the default classes whose patch it had not issued, and perhaps the class of the last one it had |
| `StorageClasses.SetAfterBrokenDisable` | pkg/kubernetes/kubernetes.go:865-900 | After a disable that broke off, a set is sure to leave one default if and only if every other default class had its patch issued, and not as the last one |
| `DefaultClassRace.StepKeepsRaceInv` | pkg/kubernetes/kubernetes.go:865-900 | One call of any of the racing callers, with any fault, keeps: each default class was asked for or lies ahead of every caller still clearing |
| `DefaultClassRace.EveryTurnCounts` | pkg/kubernetes/kubernetes.go:865-900 | Whichever caller gets its turn, its call is made: lost on the way there it changes nothing, lost on the way back it takes effect |
| `DefaultClassRace.EnoughTurnsFinish` | pkg/kubernetes/kubernetes.go:865-900 | A caller that gets a number of turns fixed by the listing succeeds or fails, whatever the others do |
| `DefaultClassRace.OnlyAskedForDefaults` | pkg/kubernetes/kubernetes.go:865-900 | In every reachable state of any number of racing callers, once one of them has cleared its list every default class is one somebody asked for |
| `DefaultClassRace.AllDoneLeavesNamedDefaults` | pkg/kubernetes/kubernetes.go:865-900 | If all racing callers succeed, in whatever interleaving, at least one class is default and only classes they named are |
| `DefaultClassRace.SameNameLeavesOneDefault` | pkg/kubernetes/kubernetes.go:865-900 | Callers that race for one class leave it the only default |
| `DefaultClassRace.RaceCanLeaveAllNames` | pkg/kubernetes/kubernetes.go:865-900 | From any cluster, any number of callers of existing classes may all succeed and leave exactly the classes they named as defaults |
| `DefaultClassRace.OneDefaultIffSameName` | pkg/kubernetes/kubernetes.go:865-900 | The exact condition: racing callers of existing classes are sure to leave one default, in every interleaving in which all succeed, if and only if they all name the same class |
| `DefaultClassRace.RaceCanLeaveTwoDefaults` | pkg/kubernetes/kubernetes.go:865-900 | The failing input: two callers that race for different classes both succeed and leave two defaults |
| `DefaultClassRace.AloneIsHelper` | pkg/kubernetes/kubernetes.go:865-900 | A caller alone passes only through states that the two methods of the helper promise |

## Left out

- GroupHelper.Helper.GetGroups: how a realm filters its groups for a search string is not modelled, and the walks never search; that the loop keeps the search is part of `Pagination.Paginate`.
- Pagination.Paginate: a server that caps pages below 100 is excluded, because the loop would then take a capped page for the last one.
- Contexts, timeouts, tokens, TLS settings, singletons and functional options: plumbing around the calls.
- Concurrent deletion or renaming of groups, and groups whose names the server normalises.
- Keycloak 23 and later, where the sub-groups of a group are no longer part of its reply.
- Symbolic links, file modes, the partial state of a file another process holds open, Windows separators and Go's `archive/zip` decoding.
- AWS semantics beyond the dependencies named above: custom route tables are not deleted by the code, and the final call may still be refused by the real service for reasons outside this model. Listings of more than one page are not fetched by the code and not modelled.
- A VPC with a gateway attached to several VPCs, and resources added while a teardown runs.
- `DeleteRoleBindings` (pkg/kubernetes/kubernetes.go:621-634), which also moves the role-binding client, and the other pass-through methods: one call each.
- The beta spelling of the default-class annotation, which the code does not look at, and the JSON encoding of the patch.
- Wrapped error texts: an error is modelled by its kind.
- Leader election, the retry loops of `ListEvent`, `GetDeployment`, `GetNode` and `GetSvc`, password and math helpers, query builders and text scanning: easy or resting on libraries that are not part of this model.
