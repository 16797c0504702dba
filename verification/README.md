# What agentiik keeps, proved

A model in Dafny of the parts of agentiik where a mistake would be silent and lasting: the git hosting of
workflow repositories, the log protocol from a runner through the API to a reader, access resolution, the
bound on recorded sign-in failures, the tail reader of the MCP server, and envelopes and task identifiers.
`dafny verify dfyconfig.toml` checks all of it.

**The repository** (`GitObjects`, `FetchWalk`, `Haves`, `Fetch`, `HaveOrder`, `Walks`, `Push`, `PushRuns`, `FirstPush`, `Mislisted`, `Mistyped`). A repository is a finite
map from names to commits, trees, blobs and annotated tags, with refs on top. `Reaches` is the one definition of
what an object leads to, as a chain of links; the walks are worklist methods, and each is proved to find what
`Reaches` says. A fetch sends everything its wants reach that the client lacks, exactly the new commits, each
object once. A push is a step that is checked against the repository as it stood at some earlier moment; over
every interleaving of such steps the store stays closed, every ref keeps its history, and without `grant:manage`
no ref disappears, no tag or protected ref moves, and a branch only moves forward.

**Commits made from files** (`Paths`, `Trees`, `Rewrite`, `Legality`, `Commits`, `GitOrder`, `Gitmodules`, `FileCommits`, `PathsNamed`). `Lookup` is
what a tree means: the file at a path, or none. The rewrite edits nested trees directory by directory, in byte
order, through one shared list of objects written, and is proved to mean the flat update of the parent's paths. It
refuses exactly the changes that cannot be made or written, and its result is always a whole push that moves its
branch forward.

**Logs** (`LogCaps`, `Characters`, `Logs`, `LogRuns`, `Shipping`, `Reading`, `LogStream`). A log's state is its row, its chunks, the keys
recorded and the store, which no transaction takes back. Dry transactions, writes and writes that die after the
store was written to come in any order. What is kept is proved to be what capping the whole shipped log at once
would keep. A reader is a sequence of connections, each cut anywhere and resumed from the last id received, while
the log grows; what it receives is proved to be every line once, in order.

**Access** (`Access`, `Effective`, `AccessRules`), **failures** (`Failures`), **tail** (`Tail`, `TailStream`) and **tasks**
(`Names`, `Decimals`, `TaskIds`, `Envelopes`) are each a rule stated on its own and the code proved against it.

Object names and digests stand for what they digest, so two differ where what they name does: `CollisionFree`
says this of the hash a commit is written with, and a shipped chunk's digest is its content. Names, paths and
lines are sequences of the bytes they are written in. Instants are integers.

## Where the code and its documentation differ

- `agk/task.go:406-408` calls composing an identifier again "the check that matters". `TaskIds.ParseTaskID`
  already returns only parts that compose to what was parsed, so that comparison never refuses anything.
- `api/mcp_dispatch.go:127-128` says a line too long is skipped. `Tail.CutLine` and `Tail.CutFrom` show what is read
  of one instead: all of it, or whatever follows a piece let go of, as it is cut. `Tail.TooLong` says when the cut
  makes a difference, and `Tail.CommentCut` gives a comment that is read as an event.
- `agk/envelope.go:310-311` says `Concat` undoes `Split` wherever there is an item. `Envelopes.SplitThenConcat` gives
  the exact condition: the envelope is valid and its time is told in UTC.
- `api/git_upload.go:341-342` takes what the common commits' trees hold to be the client's. A have that names a
  tree is marked alone, and marking a later commit's tree stops at it. `Fetch.LeftOutExactly` gives the exact
  condition, and `HaveOrder` two fetches that differ in the order of their haves alone.
- `api/git_receive.go:494-501` checks pushes so that no clone finds an object missing. No check compares what an
  object is named as with what it is. `Mislisted` is a push that is accepted and whose clone lacks a blob, since a
  fetch does not follow a file; `Mistyped` is one after which no clone is served, since a commit's tree is a blob.
  `PushRuns.RunLeaves` says exactly which runs keep files blobs and which keep the store navigable, and after a run
  that keeps both every clone is served whole (`PushRuns.RunClonesWhole`).
- `api/commits.go:94-97` checks paths before a tree is written. It lets by a directory named `.gitmodules`, which the
  encoding of the tree then refuses (`Gitmodules`).

## Model

| member | source | states |
|---|---|---|
| `GitObjects.Confined` | api/git_upload.go:523-541 | A set closed under links that holds the start of a walk holds everything the start reaches: what every walk's result rests on |
| `FetchWalk.Walk.Add` | api/git_upload.go:410-417 | An object is added exactly where it was neither seen nor marked as the client's, once, at the end of the order |
| `FetchWalk.Walk.PeelTags` | api/git_upload.go:448-469 | The result is x exactly where at most 63 tags lead from the root to x, which is held and no tag; and then exactly the tags on the way are sent or had |
| `FetchWalk.PeelIs` | api/git_upload.go:448-469 | Peeling answers x exactly where x is held, is no tag, and fewer tags than the depth lead to it |
| `FetchWalk.Walk.MarkTree` | api/git_upload.go:492-520 | Marks exactly what the root reaches around what was marked before, where files are blobs; whatever the types, only trees directories lead to and what those list as files; never fails on a navigable store |
| `FetchWalk.Walk.MarkHistory` | api/git_upload.go:472-488 | Marks commits behind the root alone, and all their parents; it ends whatever the graph, since each round marks a new object or shortens the queue |
| `FetchWalk.Walk.AddTree` | api/git_upload.go:549-579 | Sends what a tree reaches, each object followed into what is sent or had |
| `FetchWalk.Walk.AddHistory` | api/git_upload.go:523-541 | Sends each commit the client lacks behind the tips, and only those, with all its tree reaches; each tree and blob lies under the tree of one of them, around what was had |
| `Fetch.MarkCommon` | api/git_upload.go:341-360 | What is marked is reached from a common object and holds all history behind the common commits; of a sound store it is exactly `Marks`: those histories, the haves, and what lies under each commit have's tree around the haves before it |
| `Haves.MarksCommit` | api/git_upload.go:351-359 | A commit have adds exactly the history behind it and what its tree reaches around the haves before it |
| `Haves.MarksFollow` | api/git_upload.go:492-520 | Only a have stops the marking short: whatever else is marked, what it names is marked |
| `Fetch.AddWants` | api/git_upload.go:362-371 | The tips walked from are exactly the wants peeled, and every tag passed on the way is sent or had |
| `Fetch.AddTags` | api/git_upload.go:375-395 | With include-tag, every tag down to the commit is sent or had of each ref whose commit was, and no tag but of a ref whose commit is |
| `Fetch.Packing` | api/git_upload.go:338-397 | The order has no duplicates and nothing the client named; everything the wants reach is sent or reached from a common object; the commits sent are exactly those behind the peeled wants and behind no common commit; the trees and blobs sent are exactly those under such a commit's tree, around what is marked; nothing else is sent; it fails on no navigable store, and only where something it walks is not held or not of the type it is named as, or tags do not peel; the tags sent are exactly those on the way from a want, or from the tag of a ref whose commit is sent or marked, that are no haves |
| `Fetch.LeftOutExactly` | api/git_upload.go:341-360 | What the common commits' trees hold is left out if and only if no tree have comes before a commit have whose tree reaches it with anything under it that is fresh: marked in no other way and under a new commit's tree |
| `Fetch.TreesLastHarmless` | api/git_upload.go:343-360 | It is left out wherever every tree have comes after every commit have |
| `HaveOrder.TreeFirst` | api/git_upload.go:346-349 | Haves [2, 4]: blob 1, under commit 4's tree, is sent again |
| `HaveOrder.CommitFirst` | api/git_upload.go:346-349 | Haves [4, 2]: the same tree is among them, and nothing under commit 4's tree is sent |
| `HaveOrder.FetchTwice` | api/git_upload.go:338-397 | Both fetches of that repository, made |
| `Fetch.ClientEndsWhole` | api/git_upload.go:338-397 | A client whose objects are closed, having the common ones, ends closed and with everything its wants reach |
| `Fetch.CloneIsWhole` | api/git_upload.go:338-397 | With no haves, what is sent holds the wants and names only what is sent |
| `Fetch.WholeNeedsListed` | api/git_upload.go:549-579 | Whatever the types, a clone is self-contained only where everything its wants reach is behind them, a tag, or a tree that directories lead to or what such a tree lists as a file |
| `Walks.Reached` | api/git_upload.go:276-322 | Answers nil exactly where every wanted object lies behind a ref through tags and parents, early exit and all, and otherwise names one that does not |
| `Walks.Descends` | api/git_receive.go:902-929 | True only of a real ancestor, and always of a commit's only parent; false only of none, or past the bound on commits visited, or where something behind is no commit |
| `Walks.PeelCommit` | api/git_receive.go:875-895 | The commit a tag leads to within its depth, zero where it leads to none, the error where an object is missing: the commit exactly where at most 63 tags lead to it |
| `Walks.PeelToCommitIs` | api/git_receive.go:875-895 | A commit exactly where fewer tags than the depth lead to it, and a missing object exactly where they lead to one |
| `Push.NamedIsLinks` | api/git_receive.go:527-564 | What a pushed object is checked for is exactly what it links to, a submodule's commit not among it |
| `Push.HasAll` | api/git_receive.go:503-523 | Passes exactly where each name is pushed or held, whatever was asked for before, and a refusal names one that is neither |
| `Push.CheckConnected` | api/git_receive.go:502-572 | Passes exactly where every tip, and everything a pushed object names, is pushed or held, though only the pushed objects are looked at |
| `Push.JudgeMove` | api/git_receive.go:620-643 | A move let by peels to a commit, a branch to itself; one not marked forced is a creation or a fast-forward, and one marked is not, or could not be told to be |
| `Push.JudgeCommand` | api/git_receive.go:602-664 | A command let by satisfies every rule, restricted moves only with grant:manage; one refused is refused for a reason that holds of it; a branch made, or moved to a commit that follows its tip alone, is let by however long its history, unless protected |
| `Push.Judge` | api/git_receive.go:590-664 | The commands are judged in place, none asked for anything else after, all let by or the first at fault refused with its reason |
| `Push.UpdatedLands` | db/refs.go:229-353 | A push moves its refs if and only if each command asks something of a ref of its own that is where it found it, and none deletes the default branch, moves a ref protected since, or annotates what is no tag; then each ref names the commit and tag asked for, as protected as it was, or is gone, and every other ref is unchanged; a refusal's reason holds of the push |
| `PushRuns.PushKeepsClosed` | api/git_receive.go:421-492 | A push connected against an older snapshot keeps the store it is accepted into closed |
| `PushRuns.RunKeepsWhole` | api/git_receive.go:981-1015 | In every state of every run of interleaved pushes and settings, every object names held objects and every ref names a held commit, or a tag that peels to it |
| `PushRuns.RunHoldsHistories` | api/git_receive.go:421-492 | In every such state everything any ref reaches is held |
| `PushRuns.PushLeaves` | api/git_receive.go:527-564 | A push keeps every file entry naming a blob if and only if its own file entries do: nothing it is checked for looks |
| `PushRuns.PushNavigates` | api/git_receive.go:527-564 | A push keeps every tree, parent and directory an object names of that type if and only if those its own objects name are |
| `PushRuns.RunLeaves` | api/git_receive.go:527-564 | Over any run file entries name blobs, and what commits and directories name is of the type it is named as, each if and only if so at first and in every push |
| `PushRuns.RunClonesWhole` | api/git_upload.go:338-397 | In every state of a run whose pushes name everything as what it is, a fetch of refs with no haves is answered, with a self-contained set of held objects that holds the wants |
| `FirstPush.IsRun` | api/git_receive.go:421-492 | Into an empty repository, any push of objects that are connected, to a branch whose tip is a commit, is a run of its own without grant:manage |
| `Mislisted.OnePush` | api/git_receive.go:527-564 | A push of a tree listed as a file behind a good tip is accepted into an empty repository without grant:manage, and is a run |
| `Mislisted.CloneLacks` | api/git_upload.go:549-579 | The clone of it holds the tip and lacks a blob that a tree of it lists: it is not self-contained |
| `Mislisted.Clone` | api/git_upload.go:338-397 | That clone, made |
| `Mistyped.OnePush` | api/git_receive.go:527-564 | A push of a commit whose tree is a blob behind a good tip is accepted into an empty repository without grant:manage, lists only blobs as files, and is a run |
| `Mistyped.NothingAnswers` | api/git_upload.go:523-541 | No set of objects is an answer to a clone of it |
| `Mistyped.Clone` | api/git_upload.go:338-397 | That clone, asked for, fails |
| `PushRuns.RunKeepsRefs` | api/git_receive.go:602-664 | Over any run without grant:manage no ref disappears, no tag moves, and a branch's earlier tip is its later one or an ancestor of it |
| `PushRuns.RunKeepsProtected` | db/refs.go:229-353 | Over any such run a ref protected throughout names throughout what it named, though it may have become protected after a push was judged |
| `PushRuns.PassAll` | api/git_receive.go:665-696 | A push is let by exactly where every commit it leaves a ref at passes |
| `PushRuns.Hosting.Receive` | api/git_receive.go:940-1021 | Refs and objects change together or not at all, in a step of the runs above; refused only for a missing object, a command at fault, a commit the validation of versions does not pass, or refs that moved meanwhile, moved twice, or not at all; taken, every command has its effect on its ref, every other ref is unchanged, and the objects are those there were and those pushed |
| `Paths.Between` | api/commits.go:411-414 | Whatever lies between two paths below a directory in byte order is below it too |
| `Paths.SortOrders` | api/commits.go:404-407 | Distinct paths sorted are strictly in byte order, as many as there were |
| `Rewrite.GroupEnd` | api/commits.go:455-463 | The run of changes below one directory is all of them, and no later change goes below it |
| `Rewrite.Composes` | api/commits.go:415-509 | Files changed here and directories rewritten below make a tree that means, at every path, the parent's with the changes made |
| `Rewrite.BadBelow` | api/commits.go:482-494 | A change below a directory cannot be made where a file lies there, and otherwise exactly where it cannot be made below |
| `Rewrite.ComposesApplies` | api/commits.go:464-494 | A directory rewritten held no change that cannot be made |
| `Legality.LegalWritten` | repo/tree.go:152-180 | Where the entries written are legal, each written path is: its directories as directories and its last name as a file |
| `Legality.LegalStays` | repo/tree.go:152-180 | Where the parent's entries and the written paths are legal, so is each entry written: it was there, or a change wrote it |
| `Commits.ObjectsWritten.Add` | api/commits.go:389-399 | An object is held once under its hash, and nothing else changes |
| `Commits.Apply` | api/commits.go:464-479 | One file is written, its executable mode kept, or removed, and no other entry touched; refused exactly for a directory or nothing to remove |
| `Commits.Gather` | api/commits.go:446-480 | The files here are changed and nothing else, each directory's changes gathered once; refused only where a change cannot be made |
| `Commits.EncodeTree` | repo/tree.go:215-236 | Succeeds exactly where every entry is legal, and writes a tree in git's order that reads back as the entries |
| `Commits.CheckEntry` | repo/tree.go:152-180 | Accepts exactly the legal entries, rule by rule |
| `GitOrder.KeysPrecede` | repo/tree.go:195-211 | The byte order of the keys is git's comparison of the entries |
| `GitOrder.InGitOrder` | repo/tree.go:213-236 | Of any two entries of a tree written, git has the first before the second |
| `Commits.Descend` | api/commits.go:481-500 | Each directory with changes means what it should, every other entry is as it was; refused only for a file in the way or a change below that cannot be made or written |
| `Commits.RewriteBelow` | api/commits.go:415-509 | What is written of a directory means what it should, names only what was written or the parent's tree reaches, and holds no empty directory |
| `Commits.RewriteTree` | api/commits.go:404-407 | The new tree means, at every path, the parent's with the changes made; every removed path held a file; whatever it reaches was written or under the parent's tree; no directory but the root is empty; and, over a repository whose trees are legal and hold trees as directories, it is written if and only if no path is a directory's, removes nothing, or lies below a file left or written, and each written path is legal |
| `Gitmodules.NotLegal` | repo/tree.go:171-178 | Writing `.gitmodules/x` over no tree applies, and its path is not legal |
| `Gitmodules.Refused` | api/commits.go:504-507 | So the rewrite refuses it |
| `FileCommits.MakeCommit` | api/commits.go:178-292 | The commit follows the one its files were read at, which is the branch's tip where it has one; the push it makes is connected and leaves the store closed; a refusal, for its message, its files, their number, its parent or its tree, is for a reason that holds; the commit carries the message given |
| `FileCommits.AlwaysLet` | api/commits.go:288-305 | Judging the push of such a commit lets it by as a fast-forward, whoever makes it and however long the history behind it, unless the branch is protected and the pusher lacks grant:manage |
| `PathsNamed.WrittenAre` | api/commits.go:117-122 | The paths counted are exactly those of the files the commit writes |
| `PathsNamed.SharedWith` | api/commits.go:126-131 | The end of the last directory two paths share |
| `PathsNamed.NamedAnew` | api/commits.go:113-115 | In byte order, what directories a path adds to those of all paths before it are exactly those past the last it has in common with its neighbour |
| `PathsNamed.PathsNamed` | api/commits.go:116-136 | The count is the number of files written plus the number of distinct directories above them |
| `LogCaps.Cap` | api/logs.go:431-455 | The loop keeps what the caps leave of the lines one after the other |
| `LogCaps.CappedWhole` | api/logs.go:431-455 | What is kept is the first lines, at most the last of them cut short where a character begins; nothing is lost where nothing was cut |
| `LogCaps.CappedWithin` | api/logs.go:431-455 | Lines and bytes held stay within positive caps |
| `LogCaps.CutOnlyWhenFull` | api/logs.go:431-455 | Something is cut only where the lines before it, all kept whole, leave no room for it |
| `LogCaps.CutExactly` | api/logs.go:431-455 | What is kept of a log that is cut is exactly the lines before the first that does not fit, and as much of that one as the bytes left hold in whole characters |
| `LogCaps.CappedConcat` | api/logs.go:431-455 | Capping chunk after chunk, carrying the counts, is capping the whole at once |
| `LogCaps.CappedUtf8` | api/logs.go:431-455 | Lines of well-formed UTF-8 (section 4 of RFC 3629) are kept as well-formed UTF-8 |
| `Characters.SizeIs` | api/logs.go:428-430 | A character, where text is cut between characters, is as many bytes as write a Unicode scalar value, by section 3 of RFC 3629 |
| `Characters.WellFormed` | api/logs.go:428-430 | Text is well formed exactly where it is such characters one after the other |
| `Logs.ShippedLog.Take` | api/logs.go:304-415 | Dry, it changes nothing and answers the key a write would need; dying, it leaves at most an object at a recorded key; otherwise it is the protocol's step and its answer |
| `Logs.ShippedLog.Record` | api/logs.go:248-261 | The key a chunk would be written at is recorded, and nothing else changes; a chunk that conflicts is refused as a write would refuse it |
| `Logs.ShippedLog.Ship` | api/logs.go:236-276 | Whatever others do between its transactions, three attempts are enough: it never ends with its key not recorded, and answers what the log said to its last transaction |
| `Shipping.WriteTakes` | api/logs.go:362-415 | A chunk that comes next, its key recorded where needed, is taken: the log goes on after it, all its lines are shipped, what the caps leave is kept under its key, and the log is closed exactly where the chunk is final |
| `Shipping.WritePasses` | api/logs.go:335-351 | Past the caps a chunk only moves the log past itself, and closes it exactly where it is final |
| `Shipping.WriteNothing` | api/logs.go:313-364 | Every other write changes nothing |
| `Shipping.BeforeAndDying` | api/logs.go:236-276 | What a dry transaction and one that dies leave, and that they leave nothing else |
| `Shipping.Answers` | api/logs.go:313-425 | Each refusal exactly where its reason holds; otherwise how many lines were kept, and where the log stands after |
| `LogRuns.RunStored` | api/logs.go:362-415 | Over any run, with any writes dying: every object is at a recorded key, every indexed chunk names a present object with the lines it was written with, and no key is ever written with other bytes |
| `LogRuns.RunGood` | api/logs.go:304-415 | Over any run: chunks are numbered and tile the log; what is kept is what capping all that was shipped keeps; the row's counts are the kept sums |
| `LogRuns.LogIsPrefix` | api/logs.go:304-415 | From a new log, over any shipments: what is kept is a whole-line prefix of what was shipped, within the caps; untruncated, nothing below the next chunk is missing; a final chunk is the last one moved past |
| `LogRuns.HonestRun` | api/logs.go:353-364 | A runner that ships pieces of one log, in any order, again or late, has a prefix of that log taken |
| `Shipping.WholeShipped` | api/logs.go:236-415 | A runner that records and writes each piece of a log in turn, with any pieces of it shipped again or early in between, ends with the log closed by the last piece and what the caps leave of it kept: all of it where they cut nothing |
| `LogRuns.AgainChangesNothing` | api/logs.go:313-330 | A chunk already taken changes nothing, whichever transaction it is shipped again in |
| `LogRuns.AgainAnswered` | api/logs.go:317-330 | It is answered where the log stands if it is the same chunk, and refused if it is not |
| `LogRuns.ClosedForGood` | api/logs.go:332-333 | A closed log is never changed |
| `LogRuns.ChunksGrow` | api/logs.go:401-414 | Chunks are only ever added at the end |
| `Reading.ShippedIsLater` | api/logs.go:304-415 | Whatever the log protocol does is what a reader expects to happen between its reads, and loses no object |
| `Reading.Resumed` | api/logstream.go:271-277 | A connection resumed from the last id received and cut anywhere adds to what was received as if none had been cut |
| `Reading.OnceEach` | api/logstream.go:405-455 | What is received covers the lines of each dispatch from 1 to some k, once each, in order |
| `Reading.AllEnded` | api/logstream.go:354-394 | A reader in one dispatch was told of the end of every one before it |
| `LogStream.Follower.constructor` | api/logstream.go:271-277 | A stream placed at an id stands past every line up to it and before every other |
| `LogStream.Follower.Fetched` | api/logstream.go:417-432 | A chunk's object is read back only where the store had it, is not only where the store lost it, and always is where it loses none |
| `LogStream.Follower.SendChunk` | api/logstream.go:416-447 | Exactly the lines of a chunk not yet sent are sent, or, only where the store lost its object, at most one gap that covers them |
| `LogStream.Follower.SendBatch` | api/logstream.go:406-453 | A batch that is not full leaves every kept line sent; a full one moves on |
| `LogStream.Follower.SendChunks` | api/logstream.go:405-455 | Where it succeeds every line kept when it last read was sent, and it ends however the log grows |
| `LogStream.Follower.LettingGo` | api/logstream.go:489-508 | A dispatch is done with exactly where its log is closed, it ran nowhere and ended or its step is over, it ended by itself, or it was stopped and the settling time is past, counted from its end or from when the stream first met it |
| `LogStream.Follower.End` | api/logstream.go:387-388 | A dispatch is said to be whole only where its log was closed before its chunks were read and all its lines were sent |
| `LogStream.Follower.Advance` | api/logstream.go:354-394 | It works from the dispatches as they stand when it is called or after; each end it sends is of a dispatch done with, as that was read; where it waits, the dispatch is not done with and all its lines were sent; a full batch moves on by its size; and it says the step is over exactly where it is, the batch is short and its last dispatch was let go of |
| `LogStream.Follow` | api/logstream.go:354-455 | Over any connections cut anywhere while the log is shipped: all events are true and in sequence, a gap is of a chunk whose object the store lost and a line of one whose object it had, and once the step is said to be over the end of each dispatch was told |
| `LogStream.ToTheEnd` | api/logstream.go:282-342 | Once a step is over with every log closed, a stream, whenever it was opened, never waits, and gets to the end unless a read fails |
| `LogStream.LastConnection` | api/logstream.go:271-394 | A reader whose connection sees such a step is told in full, each line once and then that it is whole, of the dispatch it stood in and every one after it |
| `LogStream.NoGaps` | api/logstream.go:418-432 | Where the store loses nothing, no gap is received |
| `LogStream.WholeWhenSaid` | api/logstream.go:354-394 | Where an end says final, the log is closed and each of its lines was received before it, once |
| `Access.UnionHas` | access/permission.go:132 | A union holds what either does |
| `Access.WithoutHas` | access/permission.go:133 | A difference holds what the first does and the second does not |
| `Access.SameHas` | access/permission.go:91-110 | Two sets that hold the same permissions are equal, so comparing bits is comparing what is held |
| `Access.RolesAre` | access/role.go:41-75 | The columns added up give each role exactly its permissions, an owner every one |
| `Access.OneGrant` | access/resolve.go:105-121 | A row that applies and binds gives what its role or permission says, a workflow's nothing that only a namespace gives, or takes the one it denies |
| `Access.Resolve` | access/resolve.go:59-85 | Fails exactly for no time or a row that applies and does not bind; otherwise holds exactly what some unexpired row gives and none takes, in whatever order and however often the rows come |
| `AccessRules.RowIs` | access/resolve.go:105-121 | What one row gives and takes, written out: to whom, where, which permissions of which role, and no secret for a workflow |
| `AccessRules.RulesAre` | access/resolve.go:35-58 | A permission is held exactly where a live row allows it and none denies it, in those words |
| `AccessRules.Answer` | access/resolve.go:59-85 | Resolve answers that, fails exactly for a live row for the principal that is not clear, and gives no secret from rows on workflows alone |
| `AccessRules.KeepsAre` | access/token.go:103-114 | What a token keeps, written out |
| `Effective.KeepOnly` | api/guard.go:701-707 | Of what is resolved, exactly what the credential keeps there |
| `Effective.AskAll` | api/guard.go:678-692 | Asks about each scope a row or the credential names and its namespace, each once |
| `Effective.Unnamed` | access/grant.go:98-104 | On a workflow nothing names, what is held is what its namespace gives |
| `Effective.TellsAll` | api/guard.go:696-720 | The sparse map, read with the fall back to the namespace, tells what is held at a scope if and only if it is not a named workflow with nothing under a namespace with something |
| `Effective.Permissions` | api/guard.go:666-720 | For every scope there is, the map tells what is held but for that one exception, and fails exactly where some row cannot be read |
| `Effective.Denied` | api/guard.go:588-604 | True exactly where an unexpired row takes the permission, and then it is not held |
| `Failures.AnyInterval` | api/failures.go:85-90 | Entries counted in fixed windows of ten minutes are at most twice a window's in any ten minutes |
| `Failures.FailedSignIns.Forget` | api/failures.go:120-126 | Exactly the windows that have ended are forgotten |
| `Failures.FailedSignIns.Track` | api/failures.go:118-136 | An address is counted under its own key, or under the shared one only where it is not tracked and no more can be |
| `Failures.FailedSignIns.Admit` | api/failures.go:114-145 | Recorded, it is handed all that went unrecorded; refused, only where ten entries of its key or a hundred in all were made in the last ten minutes, and counted as unrecorded |
| `Failures.FailedSignIns.RecordedAnyway` | api/failures.go:149-155 | Hands over what went unrecorded and leaves none pending |
| `Failures.FailedSignIns.Bounded` | api/failures.go:57-68 | After any calls at times that do not go back: at most 200 entries in any ten minutes and 20 under one key, at most 1025 keys, and every refused entry told or pending |
| `Tail.TailAnswer.Keep` | api/mcp_dispatch.go:197-204 | The ring holds the last lines kept, in order from the oldest |
| `Tail.TailAnswer.ReadLine` | api/mcp_dispatch.go:170-194 | One line of the stream does to the lines kept what it says |
| `Tail.TailAnswer.Write` | api/mcp_dispatch.go:136-163 | The lines finished by what was written are read, and what is unfinished is held |
| `Tail.TailAnswer.Lines` | api/mcp_dispatch.go:207-209 | The last lines kept, as many as asked for |
| `Tail.AnyWrites` | api/mcp_dispatch.go:136-163 | However a stream is cut into writes, what is read is its lines, where each is within the limit |
| `Tail.CutLine` | api/mcp_dispatch.go:136-163 | However a line of any length is cut, what is read is the line from its start or from some place past the limit on |
| `Tail.CutFrom` | api/mcp_dispatch.go:136-163 | Each such place is where some cut has it read from |
| `Tail.TooLong` | api/mcp_dispatch.go:127-163 | All cuts of a line agree if and only if every end of it past the limit reads as the whole does: always within the limit, and for a longer line exactly where the whole and each such end change nothing |
| `Tail.CommentCut` | api/mcp_dispatch.go:136-163 | A long comment that changes nothing, cut so that its end is read as an event |
| `TailStream.ReadEvent` | api/logstream.go:521-539 | The lines an event is sent as do to a tail what the event says, its id and any comment nothing |
| `TailStream.KeptOf` | api/mcp_dispatch.go:170-194 | With no task named, every line; with one never dispatched, none |
| `TailStream.KeptLast` | api/mcp_dispatch.go:168-194 | With a task named, the lines between its last dispatch and the dispatch after that |
| `TailStream.Tailed` | api/mcp_tools.go:699-710 | A stream of events written in any pieces leaves the last of the lines its events keep |
| `Names.Identifier` | agk/names.go:158-176 | Accepts exactly the grammar of a step and a port |
| `Names.Segment` | agk/names.go:184-198 | Accepts exactly what travels as one path segment |
| `Decimals.OneSpelling` | agk/task.go:415-417 | Digits without leading zeros are the decimal of what they are worth |
| `Decimals.Number` | agk/task.go:418-435 | Reads n from exactly the decimal of n, for every n an int holds |
| `TaskIds.Injective` | agk/task.go:350-356 | Two tasks with one identifier are one task, whatever their attempts and shards |
| `TaskIds.ParseTaskID` | agk/task.go:360-397 | What is composed of valid parts parses to those parts; whatever parses is composed of what it parses to |
| `TaskIds.Validate` | agk/task.go:401-413 | Accepts exactly the identifiers composed of some valid task |
| `Envelopes.Split` | agk/envelope.go:312-326 | Refuses exactly a size below one; the shards hold the items in order, all full but the last, none empty, the metadata unchanged but for the count |
| `Envelopes.ShardCount` | agk/envelope.go:312-326 | As many shards as the size divides the items into, rounded up, and none for no items |
| `Envelopes.Validate` | agk/envelope.go:179-245 | Accepts exactly the valid envelopes, rule by rule |
| `Envelopes.Concat` | agk/envelope.go:256-300 | Succeeds exactly where the shards are of one port and what they join to is valid, with the items in order and attempt and time the largest of theirs |
| `Envelopes.JoinOfSplit` | agk/envelope.go:302-311 | What the shards join to is the envelope told in UTC with the count of its items, so itself exactly where it was that already |
| `Envelopes.SplitThenConcat` | agk/envelope.go:302-326 | For every envelope that holds an item and every size, the round trip answers the envelope if and only if it is valid and told in UTC |
| `Envelopes.Grouped` | agk/envelope.go:247-300 | An envelope joins the joined groups if and only if it joins all the shards at once |
| `Envelopes.ConcatGroups` | agk/envelope.go:247-300 | Where Concat answers each group, Concat of those answers and Concat of all the shards answer the same, or neither does |

## Left out

- HTTP handling, status codes and refusal sentences, pkt-line and side-band framing, gzip, spooling and pack parsing: they surround the decisions modelled here.
- Size limits on objects read (`repo.MaxParsedBytes`) and contexts cancelled: the model's reads do not fail for them.
- Repacking and the collection of packs: the model's store only grows.
- The pre-receive validation of versions is a parameter, any predicate on the commits a push leaves.
- Fetch.Packing: completeness and exactness are stated where every file entry names a blob; without it, what is sent depends on the order trees are walked in.
- Commits.EncodeTree: which names some filesystem takes for `.git` and for `.gitmodules` are parameters; an entry written twice cannot arise here, where entries are kept by name.
- Commits.RewriteTree: reads what an entry calls a directory if it is a tree, and refuses it otherwise; the code parses its bytes as a tree whatever its type says.
- Commits.RewriteTree: the paths are taken as `version.TreePath` and the reading of the request leave them, each name of a path there and no path twice.
- PushRuns.Hosting.Receive: the transaction of `db.UpdateRefs` is one step; the audit entries, versions and notifications it writes are not modelled.
- Logs.ShippedLog.Ship: a store or a database that fails ends the request in the code; the model has a write that dies and no other failure.
- The text of storage keys, URIs and event ids (`logKey`, `position.id`, `resumeFrom`): they are values here, and a key is apart from another where its number or digest is.
- LogStream.Follower.Advance: one batch of dispatches a call, and called again for the next; dispatches are numbered by the order they were made in.
- LogStream.Follow: timers, keep-alives, wake-ups and renewed authorisation only decide when a stream reads again, which the model leaves open; retention ends the stream as any failure does.
- Effective.Permissions: whether the caller administers and which groups it is in are passed through by the code and not modelled.
- Access: `Holds`, `Owns`, `Reaches`, `Narrows` and the reading of scopes and tokens would only add easy members.
- Failures: the key an address is counted under (`failureKey`) is a parameter.
- Tail: what a dispatch's and a line's JSON say are parameters; a refusal, which is no stream, is held whole by the code and not modelled.
- Envelopes: what an attached file is held to, how heavy an inline value is and how long an envelope is written are parameters of `Limits`.
- PostgreSQL, NATS, the object store, OAuth, webhooks, collections and the console.
