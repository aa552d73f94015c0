# Verified model of sqlite-remote-vfs

A SQLite VFS keeps a database on a page server. The client takes a lease, loads blocks, collects changes and commits
them in frames over a connection that may break anywhere; a local copy serves reads without the network; in a browser a
database can also live in IndexedDB alone. This project models that client in Dafny and proves what its documentation
promises. `dafny verify dfyconfig.toml` checks everything.

## What is modelled

| part | modules | form |
|---|---|---|
| Commit, resume and heal, with any number of sessions, one server and a network that loses, repeats and delays frames | `Session`, `Protocol`, `ProtocolInvariants`, `ProtocolSteps`, `ProtocolTheorems`, `ProtocolLease`, `ProtocolDiverged`, `ProtocolHeal`, `ProtocolErrors`, `ProtocolProgress` | steps of a state machine; the server follows its contract in `proto/sqlite_remote/v1/sqlite_remote.proto` |
| The loops of `commit`, `resume_until`, `heal` and of the connection, and whole calls of them as runs of the protocol | `SessionMoves`, `Link`, `CallReasons`, `Database`, `ProtocolMoves`, `DatabaseRuns` | classes; the moves of a call as a trace, each with what happened on the connection |
| The block cache as a flat file, one operation at a time and in whole runs | `Faults`, `FlatFile`, `Pages`, `FileRuns` | classes, and the file as a value |
| The local copy as bytes in a file, with failures and crashes | `Header`, `Bitmap`, `Faults`, `CopyFile`, `FileStore` | classes, and files as values |
| The local copy across sessions | `CopyHistory`, `CopySession`, `CopyCoherence`, `CopyKeeps`, `CopyHeal`, `CopyReads` | steps of a state machine |
| Databases kept in the browser | `BrowserLocal`, `BrowserTheorems`, `BrowserDelete`, `LocalPieces` | steps of a state machine; the bridge and the worker as a method and a class |
| Frames of a commit in the Protocol Buffers encoding, and the frames of a fetch | `Wire`, `CommitParts`, `FetchFrames` | functions, and the loop that collects an answer |

Clocks, randomness and the outcome of I/O are inputs that lie ready in order: whether a send, a new connection, a load, a
read or a write of the file fails, what the deadline test and the test of the access token say, and what arrives. So the
contracts say not only what a success means but also that nothing fails without a reason among these inputs.
Commit ids are fresh. `Protocol.State` keeps every frame that
was ever sent and every answer that was ever given, and may deliver each of them at any time and any number of times.

## What was found

Four promises do not hold as they stand. For each there is a lemma with an input or a run that breaks it and one with the
exact condition under which it holds.

- `Diverged` does not mean that the commit was not applied: after a transient error that took effect, a due token renewal
  sends the loop of `commit` through the resume at its top, which compares only the version
  (`ProtocolDiverged.DivergedAlthoughApplied`; exact: `ProtocolDiverged.DivergedOutcome`).
- With on-demand loading, a heal that finds its pending commit applied while the copy is already being written leaves the
  copy as it is, and the copy then serves old blocks as blocks of the new version (`CopyHeal.StaleHealServesOldBlock`);
  after one more commit a later session trusts them, too (`CopyHeal.LaterSessionTrustsOldBlock`). This happens exactly
  if the copy holds a block of that commit with another content (`CopyHeal.HealServes`), and every run in which it does
  not happen is coherent (`CopyCoherence.CopyServesVersion`).
- Opening a browser database without creating it deletes what it did not find. If another instance takes over the lock
  in between, it deletes that instance's database, whether this was created before the deletion is asked for
  (`BrowserTheorems.NotFoundDeletesACommit`) or only while it waits (`BrowserTheorems.NotFoundDeletesALaterCommit`).
  What is deleted has a head exactly if a connection opened the database since the instance looked
  (`BrowserTheorems.NotFoundDeletes`). A deletion can come to this exactly if, when it is asked for, there is a head or
  somebody is connected who can still create one (`BrowserDelete.DeletionDestroysIff`).
- The cache is a flat file only as long as no page is left unwritten: a gap shows what the server has there, or zeros if
  nothing is ever loaded again (`FlatFile.GapShowsOldBlock`, `FlatFile.HoleIsNotCommitted`; exact:
  `FlatFile.FlatExactlyWithoutGap`, `FlatFile.CommitStoresFile`; every run up to the first operation that leaves a gap
  is one of a flat file: `FileRuns.Play`). The local copy has the same limit
  (`CopyHistory.HoleBringsBlockBack`; exact: `CopyHistory.CommitAgrees`). The steps of `CopySession` therefore ask that
  a commit writes every block it adds, or one that never had any content: the page with SQLite's locking bytes.

Besides, the holder of a browser database's lock may be unable to commit: the order of the head transactions decides
(`BrowserTheorems.HolderIsFenced`). The comment in `connection-worker.js:811` says that an instance whose connection is
closed by a deletion could not commit anyway because the deleter took the lock first. In the run of
`BrowserTheorems.NotFoundDeletesACommit` it took the lock after the deleter and could.

## Model

| member | source | states |
|---|---|---|
| `ProtocolSteps.RunKeepsInv` | crates/sqlite-remote-vfs/src/database.rs:150-324 | every run of sessions, server and network keeps the invariant: history and calls agree, memory is coherent with its version, incomplete commits are prefixes of one call |
| `ProtocolSteps.AssembledOk` | proto/sqlite_remote/v1/sqlite_remote.proto:246-251 | a part the server accepts extends a prefix of one call by exactly its next part, so parts of two attempts or two commits never mix |
| `ProtocolSteps.CompleteIsWhole` | proto/sqlite_remote/v1/sqlite_remote.proto:230-252 | what the last part completes is exactly the set of blocks the call was to write |
| `ProtocolTheorems.AppliedAtMostOnce` | proto/sqlite_remote/v1/sqlite_remote.proto:235-237 | in every run no commit id is applied at two versions, however often it is sent or delivered |
| `ProtocolTheorems.AcknowledgedCommit` | crates/sqlite-remote-vfs/src/database.rs:226-324 | a commit that returned success was applied once, under its lease and directly on its base version, and the version it made is the whole file as the session saw it when it called `commit` |
| `ProtocolTheorems.AppliedInCallOrder` | crates/sqlite-remote-vfs/src/database.rs:247-303 | the commits applied for one session appear in the order of its calls, across breaks, heals and late frames |
| `ProtocolTheorems.AcknowledgedAreApplied` | crates/sqlite-remote-harness/src/main.rs:294-306 | every call that was reported successful is in the server's history under the session's lease |
| `ProtocolTheorems.EpochsNeverDecrease` | proto/sqlite_remote/v1/sqlite_remote.proto:158-163 | epochs along the applied history, deletions included, never decrease |
| `ProtocolTheorems.OldLeaseNeverCommits` | proto/sqlite_remote/v1/sqlite_remote.proto:158-163 | from any state on, whatever is applied carries at least the epoch granted by then: frames of an older lease never take effect |
| `ProtocolTheorems.FencedIsReal` | crates/sqlite-remote-vfs/src/client.rs:204-218 | a session whose lease counts as revoked, or that reports itself fenced, has lost its lease and never gets it back: a current lease is never fenced |
| `ProtocolTheorems.ReadsSeeTheSnapshot` | crates/sqlite-remote-vfs/src/database.rs:361-390 | while the database is usable, what it reads is the snapshot of its version overlaid with its uncommitted writes, whether a block was preloaded, fetched, committed or taken from a coherent copy |
| `ProtocolTheorems.BrokenStaysBroken` | crates/sqlite-remote-vfs/src/database.rs:188-242 | a database that broke for another reason than an unreachable server keeps reason, version and blocks in every later state and sends nothing more |
| `ProtocolTheorems.OnlyHealRepairs` | crates/sqlite-remote-vfs/src/database.rs:150-178 | one that could not reach the server becomes usable only at the end of a heal: resumed, at its version or the one of its pending commit, with the file of that version and nothing pending |
| `ProtocolLease.AtMostOneAhead` | crates/sqlite-remote-harness/src/main.rs:294-306 | in every run the server is at the version of the session that holds the lease, or one above it: it never has more than what was acknowledged and one commit in flight |
| `ProtocolLease.PartOutcome` | proto/sqlite_remote/v1/sqlite_remote.proto:233-252 | a part changes nothing in the history, or applies its own commit under the current lease on the current version and becomes the last commit |
| `ProtocolDiverged.DivergedOutcome` | crates/sqlite-remote-vfs/src/database.rs:253-301 | a commit that ends as `Diverged` was applied, then and ever after, exactly if the resume named it as the last commit; after a broken connection it never does |
| `ProtocolDiverged.DivergedAlthoughApplied` | crates/sqlite-remote-vfs/src/database.rs:254-262 | a run from the start that ends as `Diverged` although the commit was applied |
| `ProtocolHeal.ServerIsInStep` | crates/sqlite-remote-vfs/src/database.rs:150-178 | if frames of a dropped connection do not outlive the resume that replaces it, the server is one version above the holder of the lease exactly when the pending commit was applied, and then names it as its last |
| `ProtocolHeal.HealIsExact` | crates/sqlite-remote-vfs/src/database.rs:150-178 | while the lease is current, a heal never diverges, ends at the server's version, and moves the version exactly when the pending commit was applied |
| `ProtocolHeal.FailedFillCanBeRetried` | crates/sqlite-remote-vfs/src/database.rs:170-175 | a heal whose loading of the blocks or check of the local copy fails because the server cannot be reached, after the version moved, can be repeated: no answer of the next resume at the server's version makes it diverge |
| `ProtocolErrors.HealError` | crates/sqlite-remote-vfs/src/database.rs:761-772 | a heal whose resume or load is answered with an error can be started again exactly for `Internal` and `RateLimited`; a lost lease ends as fenced, a refused login as denied, every other code as refused, and the blocks in memory stay |
| `ProtocolErrors.CommitError` | crates/sqlite-remote-vfs/src/database.rs:265-284 | a commit whose last part is refused: the first refusal counts; `Internal` and `RateLimited` send it again until it is late, a lost lease fences, every other code is final |
| `ProtocolErrors.EarlyRefusal` | crates/sqlite-remote-vfs/src/client.rs:494-505 | a part before the last that is refused: the first refusal is remembered, and the commit goes on waiting for the last part |
| `ProtocolErrors.ResumeError` | crates/sqlite-remote-vfs/src/database.rs:706-725 | a resume in the middle of a commit that is answered with an error: fenced and denied at once, otherwise tried again until it is late |
| `ProtocolErrors.ReadError` | crates/sqlite-remote-vfs/src/database.rs:371-386 | an error to the load of a read fails the read alone unless the lease is lost; one to its resume breaks the database |
| `ProtocolErrors.OpenError` | crates/sqlite-remote-vfs/src/database.rs:88-132 | an open that is answered with an error, or whose load is, is over |
| `ProtocolProgress.CommitCanSucceed` | crates/sqlite-remote-vfs/src/database.rs:226-324 | in every reachable state, a commit that is begun can still succeed exactly if its session holds the lease and the server is at its version, whether or not it has to resume first: some run gets it done, and without these no run does |
| `ProtocolProgress.CommitGoesThrough` | crates/sqlite-remote-vfs/src/database.rs:226-324 | and then it gets done in a run without late frames, on top of the version the session knew, with the session usable at the next one |
| `ProtocolProgress.DeadLeaseNeverCommits` | proto/sqlite_remote/v1/sqlite_remote.proto:158-163 | nothing is ever applied under a lease that is closed, deleted or taken over |
| `ProtocolProgress.HealCanSucceed` | crates/sqlite-remote-vfs/src/database.rs:150-178 | if frames of a dropped connection do not outlive the resume that replaces it, a broken session can become usable again exactly if it still holds the lease, whatever became of its pending commit; otherwise no number of heals helps |
| `ProtocolProgress.ReadGoesThrough` | crates/sqlite-remote-vfs/src/database.rs:361-390 | a session that holds the lease at the server's version can get any blocks of its file into memory, those it had stay, and it is usable afterwards, also if it has to resume first |
| `ProtocolProgress.OpenGoesThrough` | crates/sqlite-remote-vfs/src/database.rs:88-132 | in every reachable state a new session can open the database: it then has the lease, the server's version and size, and with preloading every block |
| `ProtocolMoves.MoveIsAStep` | crates/sqlite-remote-vfs/src/database.rs:226-324 | a move of a session is a step of the protocol that changes that session alone, if frame ids, answers and revocations are the server's |
| `ProtocolMoves.MoveCommutes` | crates/sqlite-remote-vfs/src/client.rs:522-541 | a move means the same whether requests have the numbers of the connection or those of the protocol, as long as different requests keep different names |
| `ProtocolMoves.CallIsARun` | crates/sqlite-remote-vfs/src/database.rs:226-324 | the moves of a whole call, however steps of the server and of other sessions lie between them, are a run of the protocol that ends with the session as the call left it; all the protocol's numbers follow from the order of sending |
| `DatabaseRuns.DoneIsCommitted` | crates/sqlite-remote-vfs/src/database.rs:226-324 | a commit whose moves end with it reported as done was applied by the server on the version the session knew, and made the file the session saw, in every world that played along |
| `DatabaseRuns.Commit` | crates/sqlite-remote-vfs/src/database.rs:226-324 | so if `commit` returns success, then whatever other sessions, server and network did meanwhile, the server applied this commit under its lease and the next version is the file as it was when `commit` was called |
| `DatabaseRuns.Heal` | crates/sqlite-remote-vfs/src/database.rs:150-178 | and if `heal` returns success, the session can be used and every unmodified block in memory is the server's at the version it then has |
| `Link.Link.Send` | crates/sqlite-remote-vfs/src/client.rs:522-541 | request ids grow by one and are never used twice; it fails exactly if the connection is down or the send is to fail, and that breaks the connection |
| `Link.Link.Receive` | crates/sqlite-remote-vfs/src/client.rs:545-571 | returns the first frame that is not unprompted, takes exactly the frames up to it, and knows then the newest epoch it knew or that one of their revocations named |
| `Link.RevokedByIsMax` | crates/sqlite-remote-vfs/src/client.rs:545-571 | the epoch known after some frames is the maximum of the one before and of all revocations among them |
| `Link.Link.Await` | crates/sqlite-remote-vfs/src/client.rs:327-340 | the answer is the first frame with one of the ids asked for; no frame with another id is taken for it, and revocations on the way are noted as by `Receive`; if the connection is up and delivers such a frame, it is returned |
| `Link.Link.Request` | crates/sqlite-remote-vfs/src/client.rs:327-340 | sends one request and waits: a reply to it is returned with its id, and there is none only if the connection failed; if the request goes out and the frames bring a reply to it, that is the result, and the frames after it are left |
| `Link.FollowsMakes` | crates/sqlite-remote-vfs/src/database.rs:226-324 | the moves of a trace are moves of the session one after the other, with request ids that grow, answers among the frames, and parts of this commit |
| `Link.Link.Take` | crates/sqlite-remote-vfs/src/client.rs:545-571 | what arrives is what the connection has next; nothing arrives exactly if it is down or has nothing left; only a cut breaks it |
| `CallReasons.HappenedFromStore` | crates/sqlite-remote-vfs/src/client.rs:522-571 | whatever a call notes as an event was in store for it and is used up: a fault of a send, of dialling or of the copy, what the clock and the token test said, a frame that arrived |
| `CallReasons.BreakFromStore` | crates/sqlite-remote-vfs/src/client.rs:522-571 | so every break of the connection comes from a fault, a cut, the end of what arrives, a connection that was down, or a frame that is no answer to its request |
| `CallReasons.CommitHasReason` | crates/sqlite-remote-vfs/src/database.rs:226-324 | a commit that leaves the database broken had a reason on the connection: fenced, denied and refused only after an error that says so, diverged only after another version was named, uncertain only after the clock said late and a break, a transient refusal or a useless answer to a resume |
| `CallReasons.HealHasReason` | crates/sqlite-remote-vfs/src/database.rs:150-178 | so had a heal: each way it can fail needs its error code, another version, a break, a reply that does not fit, or a failed check of the local copy |
| `Database.Database.Resume` | crates/sqlite-remote-vfs/src/database.rs:734-759 | on the old connection or a new one, it makes moves of a session that resumes; an answer it returns was received for a request of its own, there is none only if the connection failed, and on one that works the first reply to its request is the result |
| `Database.Database.ResumeUntil` | crates/sqlite-remote-vfs/src/database.rs:706-725 | moves of a resuming session until it is resumed, or idle and broken for the reason that is returned |
| `Database.Database.OnResumeFailed` | crates/sqlite-remote-vfs/src/database.rs:714-723 | a lost lease and a refused login are final at once, anything else only after the deadline |
| `Database.Database.AwaitCommit` | crates/sqlite-remote-vfs/src/client.rs:494-519 | the answer returned is the one to the last part, and the refusal beside it is the first refusal of any part before it |
| `Database.Database.SendParts` | crates/sqlite-remote-vfs/src/client.rs:486-520 | all parts are sent before anything is awaited; a break on the way leaves the session resuming; if all parts go out and the first answer to one of them acknowledges the last, that is the result, without a refusal |
| `Database.Database.OnAnswer` | crates/sqlite-remote-vfs/src/database.rs:263-284 | the commit succeeds exactly if its last part was acknowledged and no part refused; otherwise the first refusal decides |
| `Database.Database.OnReopened` | crates/sqlite-remote-vfs/src/database.rs:285-301 | after a break, version and last commit id decide between success, `Diverged` and sending again, as in the session |
| `Database.Database.Commit` | crates/sqlite-remote-vfs/src/database.rs:226-324 | the nested loops make exactly the moves of a session that starts this commit, each for a reason that was in store on the connection, with increasing request ids and the parts of this commit, until it is idle; they succeed exactly if the session does. It does succeed, at the version acknowledged, if the connection works and the first answer to one of the parts acknowledges the last; it breaks the database only for a reason as in `CommitHasReason`, a revoked lease fences at once, and a broken or clean database is left alone |
| `Database.Database.Reload` | crates/sqlite-remote-vfs/src/database.rs:677-703 | loading after a heal is a load of the session; if it fails, the blocks in memory stay as they were; with all blocks delivered it succeeds, and an error breaks as its code says |
| `Database.Database.OnHealing` | crates/sqlite-remote-vfs/src/database.rs:155-170 | the version test of a heal is that of the session; if the version fits, the blocks are loaded or, on demand, the heal is over and succeeds unless the check of the local copy fails |
| `Database.Database.Heal` | crates/sqlite-remote-vfs/src/database.rs:150-178 | a heal makes exactly the moves of a session that heals, each for a reason that was in store, reports no commit, and returns how it left the database. It succeeds if the connection works, the version fits and the blocks arrive; an error to its resume or its load leaves it fenced, denied, uncertain or refused as the code says; it fails only for a reason as in `HealHasReason` |
| `FlatFile.FlatExactlyWithoutGap` | crates/sqlite-remote-vfs/src/pages.rs:221-256 | a write behaves as on a flat zero-extended file exactly if only zeros lie behind the pages it skips; a write that starts at or before the end always does |
| `FlatFile.GapShowsOldBlock` | crates/sqlite-remote-vfs/src/pages.rs:221-256 | a file cut to nothing and written from its second page on shows the old first block |
| `FlatFile.OverwriteContinues` | crates/sqlite-remote-vfs/src/pages.rs:221-256 | writing piece by piece up to page boundaries is writing at once |
| `FlatFile.PokeWritesFile` | crates/sqlite-remote-vfs/src/pages.rs:236-253 | replacing bytes of one page in memory replaces exactly those bytes of the file |
| `FlatFile.ReadContinues` | crates/sqlite-remote-vfs/src/pages.rs:192-219 | a read goes on by the bytes of the next page |
| `FlatFile.CutFile` | crates/sqlite-remote-vfs/src/pages.rs:258-266 | a truncation keeps the bytes of the pages that stay; pages added this way show what lies behind them |
| `FlatFile.PagesForFits` | crates/sqlite-remote-vfs/src/pages.rs:258-266 | the page count after a truncation holds the size asked for, and one page less does not |
| `FlatFile.CommitStoresFile` | crates/sqlite-remote-vfs/src/pages.rs:121-136 | the modified blocks turn the stored version into the file exactly if no page was left out of a file that is never loaded again |
| `FlatFile.HoleIsNotCommitted` | crates/sqlite-remote-vfs/src/pages.rs:121-136 | an unwritten page of a file that is never loaded again reads as zeros, but the old block stays stored |
| `FlatFile.CommitKeepsFile` | crates/sqlite-remote-vfs/src/pages.rs:130-136 | a commit leaves the file as it is |
| `FlatFile.EvictionMakesRoom` | crates/sqlite-remote-vfs/src/pages.rs:162-188 | what is evicted leaves room for the incoming blocks as far as clean blocks go, nothing is evicted if they fit already, and never more than down to 7/8 of the limit |
| `FlatFile.DivisionLocates` | crates/sqlite-remote-vfs/src/pages.rs:192-219 | division and remainder find the page of a position and the place on it |
| `FlatFile.LastUseIsLast` | crates/sqlite-remote-vfs/src/pages.rs:145-150 | the last use of a block is the latest entry of the history that names it |
| `FlatFile.CacheMoves` | crates/sqlite-remote-vfs/src/pages.rs:221-266 | writes, truncations and the modified blocks of the cache are those of the session in the protocol |
| `Faults.FailureNeedsFault` | crates/sqlite-remote-vfs/src/pages.rs:269-290 | operations that fail took a fault that was in store for them, and without faults none fails |
| `Pages.Source.Fill` | crates/sqlite-remote-vfs/src/database.rs:361-390 | a load brings stored blocks into memory without changing what any page reads as; blocks already there stay; it fails exactly if a fault is in store for it, and otherwise brings at least the first of the blocks asked for |
| `Pages.Pages.Keep` | crates/sqlite-remote-vfs/src/pages.rs:153-156 | a block is stored unless one is there, which may be newer |
| `Pages.Pages.Touch` | crates/sqlite-remote-vfs/src/pages.rs:145-150 | a use is the newest entry in the history of uses, and the block's time is that of its last use in it |
| `Pages.Pages.LeastRecentlyUsed` | crates/sqlite-remote-vfs/src/pages.rs:162-188 | the blocks chosen were all used strictly before every clean block that is not chosen |
| `Pages.Pages.MakeRoom` | crates/sqlite-remote-vfs/src/pages.rs:162-188 | only clean blocks leave, the least recently used first and exactly as many as needed, the file stays the same, and the rest fits the limit with what comes in |
| `Pages.Pages.EnsureLoaded` | crates/sqlite-remote-vfs/src/pages.rs:269-290 | the page is in memory or never loaded again, no page reads differently, and clean blocks stay within the bound; it fails only if a load does, never for a block in memory or a preloaded file, for which nothing is asked for; what is asked for is a run of missing blocks that starts with this one |
| `Pages.Pages.Read` | crates/sqlite-remote-vfs/src/pages.rs:192-219 | a read that does not fail fills the buffer with the file's bytes, zeros past the end, and says short exactly when it goes past the end; a preloaded file stays complete; it fails only if a load does, and never if its pages are in memory or the file is preloaded |
| `Pages.Pages.Write` | crates/sqlite-remote-vfs/src/pages.rs:221-256 | writes all of the data, or if a load fails the part up to a page boundary and nothing else; it fails only if a load does, and never on a preloaded file, which stays complete |
| `Pages.Pages.Truncate` | crates/sqlite-remote-vfs/src/pages.rs:258-266 | the file is cut to just enough pages; blocks beyond are dropped and not committed |
| `Pages.Pages.CommitDone` | crates/sqlite-remote-vfs/src/pages.rs:121-136 | the modified blocks are returned, memory becomes coherent with the new version, the file stays, all blocks held fit the limit, and a preloaded file stays complete |
| `Pages.Pages.LoadAll` | crates/sqlite-remote-vfs/src/database.rs:396-408 | preloading gives the stored file, complete without a limit and within it otherwise |
| `FileRuns.CommittedIsTheFile` | crates/sqlite-remote-vfs/src/pages.rs:121-136 | what a commit stores is the file, if a file that is never loaded again is complete |
| `FileRuns.Play` | crates/sqlite-remote-vfs/src/pages.rs:192-290 | any sequence of reads, writes, truncations and commits, up to the first that would leave a gap in the file, gives the results of a flat file with a saved copy and ends with the same file and the same stored file, for every source of blocks, every memory limit and every way loads and commits fail; a read or write fails exactly if a load it needs does, and none on a preloaded file |
| `Header.NumberRoundTrip` | crates/sqlite-remote-vfs/src/local.rs:443-491 | a number that fits comes back from its little-endian bytes |
| `Header.LittleEndianByte` | crates/sqlite-remote-vfs/src/local.rs:443-491 | byte k of a number is its k-th digit to base 256, the lowest first |
| `Header.BytesRoundTrip` | crates/sqlite-remote-vfs/src/local.rs:463-491 | any bytes are those of the number read from them |
| `Header.ValidUtf8IsText` | crates/sqlite-remote-vfs/src/local.rs:475-478 | exactly the encodings of sequences of Unicode scalar values are accepted as names |
| `Header.DecodesWhatItDescribes` | crates/sqlite-remote-vfs/src/local.rs:463-491 | bytes decode to a head and a state exactly if they begin with the magic bytes and have each field of the head in its place |
| `Header.HeaderRoundTrip` | crates/sqlite-remote-vfs/src/local.rs:443-491 | a head that fits the header decodes to itself exactly if page size and page count are ones SQLite allows, and to nothing otherwise |
| `Header.EncodedState` | crates/sqlite-remote-vfs/src/local.rs:443-491 | whatever else a written header decodes to, its state is the one written |
| `Bitmap.SetByte` | crates/sqlite-remote-vfs/src/local.rs:257-270 | setting or clearing a bit changes that bit and no other |
| `Bitmap.Present.Mark` | crates/sqlite-remote-vfs/src/local.rs:257-270 | marks exactly one block; a block without a bit is ignored |
| `Bitmap.Present.Resized` | crates/sqlite-remote-vfs/src/local.rs:272-282 | exactly the blocks below the new page count that were marked stay marked |
| `CopyFile.ShownIsViewed` | crates/sqlite-remote-vfs/src/local.rs:332-378 | a trusted file shows a set of blocks exactly if the bitmap marks them and they are in place |
| `CopyFile.HeaderPending` | crates/sqlite-remote-vfs/src/local.rs:318-324 | while only a header is pending, a crash leaves the old file or the new one, and no stray bit in a trusted one |
| `CopyFile.BlocksPending` | crates/sqlite-remote-vfs/src/local.rs:380-412 | once the header says writing on disk, a crash leaves an untrusted copy whatever else is pending |
| `FileStore.PutKeepsBlocks` | crates/sqlite-remote-vfs/src/local.rs:395-405 | writing a block, also over the old bitmap, leaves every other block in place |
| `FileStore.BitsKeepBlocks` | crates/sqlite-remote-vfs/src/local.rs:406-409 | moving the bitmap, also over old blocks, keeps every block below the page count, and the bitmap reads back |
| `FileStore.ReadRun` | crates/sqlite-remote-vfs/src/local.rs:356-378 | the blocks read are the longest run of present blocks from the first one asked for, cut at the number asked for |
| `FileStore.Store.Head` | crates/sqlite-remote-vfs/src/local.rs:347-354 | a head is returned exactly if the copy is trusted; it fails only if reading the file does |
| `FileStore.Store.Read` | crates/sqlite-remote-vfs/src/local.rs:356-378 | returns the blocks the copy shows from the first one on, up to the first missing one, and nothing of an untrusted copy; it fails only if reading the file does |
| `FileStore.Store.Write` | crates/sqlite-remote-vfs/src/local.rs:380-412 | whatever the file held, also an untrusted copy or one of another page size, the new copy has what lay in the place of its marked blocks below the page count, overwritten by the given blocks; over a trusted copy with blocks of this size, or none, exactly the blocks shown before below the page count and the given ones are shown, these as they were given last and the others unchanged; it fails only if an operation on the file does; in every state on the way a crash leaves the old copy, the new one, or one that is not trusted, and never a stray bit in a trusted one |
| `FileStore.Store.Forget` | crates/sqlite-remote-vfs/src/local.rs:414-431 | of a trusted copy with blocks of this size, a block is shown afterwards exactly if it was shown before, lies below the new page count and is not among the changed ones, and then with the same bytes; of any other file the new copy has what lay in the place of the marked blocks that did not change; it fails only if an operation on the file does, or without a header, which changes nothing; crashes as for a write |
| `FileStore.ResidueOfTrusted` | crates/sqlite-remote-vfs/src/local.rs:380-431 | for a trusted copy of the same page size, what lay there are its blocks below the page count |
| `FileStore.Store.Clear` | crates/sqlite-remote-vfs/src/local.rs:433-440 | afterwards there is no copy and any copy can be written, or the removal failed and nothing changed |
| `CopyHistory.CommitAgrees` | crates/sqlite-remote-vfs/src/database.rs:589-638 | blocks of one version, overwritten by a commit's, are blocks of the next exactly if no block the commit added unwritten is still there with something else than zeros |
| `CopyHistory.HoleFreeCommitAgrees` | crates/sqlite-remote-vfs/src/database.rs:589-638 | so a commit that writes what it adds, or adds only blocks that never had content, keeps the copy in agreement, also without blocks, when nothing is written to the copy |
| `CopyHistory.UnwrittenCommitAgrees` | crates/sqlite-remote-vfs/src/database.rs:413-416 | if the blocks of a commit are not written to the copy, it agrees with the new version exactly if it has none of them with another content |
| `CopyHistory.HoleBringsBlockBack` | crates/sqlite-remote-vfs/src/database.rs:589-593 | a block cut off by a commit without blocks comes back if a later commit adds it without writing it |
| `CopyHistory.Untouched` | proto/sqlite_remote/v1/sqlite_remote.proto:218-228 | a block no commit wrote is the same in both versions, however the file shrank and grew in between |
| `CopyHistory.CaughtUpAgrees` | crates/sqlite-remote-vfs/src/database.rs:488-513 | dropping the blocks of the change log and clipping leaves only blocks of the new version |
| `CopyHistory.Runs` | crates/sqlite-remote-vfs/src/database.rs:809-818 | the ranges are ascending, not adjacent, not empty, and cover exactly the blocks |
| `CopyHistory.Clipped` | crates/sqlite-remote-vfs/src/database.rs:501-507 | the clipped ranges cover exactly what lies below the page count, still ascending and apart |
| `CopySession.WriteIsAJob` | crates/sqlite-remote-vfs/src/local.rs:153-170 | a write to the file is the step of a queued job, and one interrupted anywhere leaves what the steps allow, ready to be written again if it is trusted |
| `CopySession.ForgetIsACatchUp` | crates/sqlite-remote-vfs/src/local.rs:414-431 | a catch-up of the file is the one of the steps, and one interrupted anywhere leaves what the steps allow, ready to be written again if it is trusted |
| `CopySession.MayWriteIsWritable` | crates/sqlite-remote-vfs/src/database.rs:427-433 | a tidy file that the steps may write to, with no trusted copy or one of this database, is one whose blocks a write takes over as they are |
| `CopyCoherence.FetchedAgrees` | crates/sqlite-remote-vfs/src/database.rs:396-408 | fetched blocks go with blocks of the same version, and with any blocks if all were fetched |
| `CopyCoherence.LessIsFine` | crates/sqlite-remote-vfs/src/local.rs:153-180 | queued writes keep their meaning if the copy they were queued for is lost |
| `CopyCoherence.TakingKeepsInv` | crates/sqlite-remote-vfs/src/database.rs:413-537 | checking, clearing or catching up a copy, with every way it can fail, keeps the invariant |
| `CopyCoherence.CommitKeepsInv` | crates/sqlite-remote-vfs/src/database.rs:589-593 | so does a commit, also one without blocks that leaves the head of the copy behind |
| `CopyCoherence.FailedJobKeepsInv` | crates/sqlite-remote-vfs/src/local.rs:160-168 | so does a failed write, whether or not the copy can be cleared then |
| `CopyKeeps.GoodCopyIsUsed` | crates/sqlite-remote-vfs/src/database.rs:435-513 | a trusted copy of this database that is current is used as it is; one that is behind is used if the change list is there, and exactly the blocks below the new page count that the list does not name stay, unchanged |
| `CopyKeeps.OtherCopyIsRemoved` | crates/sqlite-remote-vfs/src/database.rs:413-442 | any other copy is removed, or not used if that fails; only one that is ahead stays, and then the database is not opened |
| `CopyKeeps.FetchedIsKept` | crates/sqlite-remote-vfs/src/database.rs:361-390 | as long as no write failed, fetched blocks get into the copy with the content of the session's version, and none that was there is lost |
| `CopyKeeps.CommittedIsKept` | crates/sqlite-remote-vfs/src/database.rs:589-638 | so do the blocks of a commit, over those that were there |
| `CopyKeeps.AllIsWritten` | crates/sqlite-remote-vfs/src/local.rs:153-180 | once the background thread has written what is queued, the copy holds exactly that, under the head queued last |
| `CopyKeeps.NextSessionFindsIt` | crates/sqlite-remote-vfs/src/database.rs:413-452 | a session whose last write carries its version leaves a copy that the next session uses, with every block that was queued |
| `CopyCoherence.MovedCopyServes` | crates/sqlite-remote-vfs/src/database.rs:413-416 | a copy under which a heal moved the version serves the new version exactly if it holds no block of the commit with another content |
| `CopyCoherence.RunKeepsInv` | crates/sqlite-remote-vfs/src/database.rs:396-638 | every run over any number of sessions in which no heal ends with such an old block in the copy keeps the invariant |
| `CopyCoherence.CopyServesVersion` | crates/sqlite-remote-vfs/src/local.rs:6-13 | in each of these runs, across sessions, crashes, commits, failed writes and heals, what the copy serves below the page count is the server's block at the session's version |
| `CopyReads.CopyServesTheStep` | crates/sqlite-remote-vfs/src/database.rs:361-370 | the block a readable copy serves is the one the protocol's step takes into memory |
| `CopyCoherence.RunKeepsGuarded` | crates/sqlite-remote-vfs/src/database.rs:427-442 | in every run, stale heals or not, the copy and all queued writes are this database's, not ahead of the session, and written only over a file that may be |
| `CopyCoherence.NeverOverUntrusted` | crates/sqlite-remote-vfs/src/database.rs:427-433 | in every run nothing is ever written over an untrusted copy or another database's |
| `CopyCoherence.NeverAhead` | crates/sqlite-remote-vfs/src/database.rs:435-442 | in every run a copy of this database is never ahead of the session: the refusal to open one needs a server that lost commits |
| `CopyHeal.HealServes` | crates/sqlite-remote-vfs/src/database.rs:413-416 | after an on-demand heal that found its commit applied while the copy was being written, the copy serves the new version exactly if it holds no block of the commit with another content, and exactly then the heal is none of those `CopyServesVersion` leaves out |
| `CopyHeal.StaleHealServesOldBlock` | crates/sqlite-remote-vfs/src/database.rs:413-416 | a run from a new database that ends with the copy serving an old block as one of the new version |
| `CopyHeal.LaterSessionTrustsOldBlock` | crates/sqlite-remote-vfs/src/database.rs:413-452 | that run goes on: one more commit, and a later session finds the copy at the server's version and trusts the old block in it |
| `BrowserLocal.RunKeepsInv` | crates/sqlite-remote-vfs/src/connection-worker.js:743-960 | every interleaving of opening, stealing the lock, committing, closing, crashing and deleting, with head transactions that finish on a closing connection, keeps the invariant and only adds to the history |
| `BrowserTheorems.OnlyLatestOpenerCommits` | crates/sqlite-remote-vfs/src/connection-worker.js:896-930 | between the opening of a connection and a commit of it, nothing but its own commits happened to the database |
| `BrowserTheorems.StoredIsWhole` | crates/sqlite-remote-vfs/src/connection-worker.js:896-930 | the stored database is the replay of the commits that took effect, each as a whole, with no block beyond its end |
| `BrowserTheorems.TransactionIsApply` | crates/sqlite-remote-vfs/src/connection-worker.js:904-920 | a transaction does to the stored file what a commit does to a version on the server |
| `BrowserTheorems.NoStaleConnection` | crates/sqlite-remote-vfs/src/connection-worker.js:784-792 | a commit that is still to run belongs to the stored incarnation, and takes effect exactly if its connection has the epoch of the head, which only the latest opener has: epochs can start again after a deletion |
| `BrowserTheorems.CommitGoesThrough` | crates/sqlite-remote-vfs/src/connection-worker.js:797-930 | whatever the other instances are at, one that steals the lock of a database nobody deletes can open it, create it if need be, and commit: both take effect on what is stored |
| `BrowserTheorems.NotFoundDeletes` | crates/sqlite-remote-vfs/src/connection-worker.js:838-844 | when the deletion of an open that found nothing completes, what it drops has a head exactly if a connection opened the database since the instance looked |
| `BrowserTheorems.NotFoundDeletesACommit` | crates/sqlite-remote-vfs/src/connection-worker.js:838-844 | a run in which it deletes another instance's commit |
| `BrowserTheorems.NotFoundDeletesALaterCommit` | crates/sqlite-remote-vfs/src/connection-worker.js:784-792 | a run in which the database is created and committed to only after the deletion was asked for, and is dropped with it |
| `BrowserDelete.DeletionDestroysIff` | crates/sqlite-remote-vfs/src/connection-worker.js:784-844 | from a deletion that is asked for, some run drops a database that has been opened exactly if there is one by then, or a connection that has a transaction waiting to create it or whose instance has yet to begin one |
| `BrowserTheorems.HolderIsFenced` | crates/sqlite-remote-vfs/src/connection-worker.js:797-849 | a run in which the holder of the lock is fenced by an instance that lost the lock while opening |
| `LocalPieces.PieceFields` | crates/sqlite-remote-vfs/src/transport.rs:477-520 | a piece parses back to its flags, epoch, page count and blocks |
| `LocalPieces.Collect` | crates/sqlite-remote-vfs/src/connection-worker.js:501-509 | the worker's loop collects the blocks the piece encodes |
| `LocalPieces.Worker.Receive` | crates/sqlite-remote-vfs/src/connection-worker.js:490-517 | a first piece discards leftovers, a last piece hands over all blocks since the first, as one commit |
| `LocalPieces.NextPiece` | crates/sqlite-remote-vfs/src/transport.rs:482-508 | a piece carries on where the last ended, is flagged first and last exactly when it is, takes as many blocks as fit, and exceeds the buffer only if it has a single block |
| `LocalPieces.PieceWithin` | crates/sqlite-remote-vfs/src/transport.rs:490-494 | a piece within the buffer has only blocks that fit it, and a single block that fits makes such a piece |
| `LocalPieces.SendCommit` | crates/sqlite-remote-vfs/src/transport.rs:477-520 | whatever was left from a commit broken off, the worker hands over exactly this commit or nothing, and nothing at all if a single block does not fit; it is done unless a block does not fit, a piece is turned down or one is not answered |
| `FetchFrames.FetchFrames` | crates/sqlite-remote-vfs/src/client.rs:443-481 | blocks are returned exactly if the frames for this request, among any others, start with a complete answer with as many blocks as expected and of the right size; they are those of all its frames, each with its index. Otherwise the first frame for this request that is not such a page decides: an error is returned with its code, anything else as unexpected; lost only if no frame decides |
| `FetchFrames.FetchedOnce` | crates/sqlite-remote-vfs/src/client.rs:443-481 | for every sequence of frames just one result is right |
| `FetchFrames.AnswersAmong` | crates/sqlite-remote-vfs/src/client.rs:545-571 | a frame for this request counts wherever it lies among others, and one for another request never does |
| `FetchFrames.FetchesWanted` | crates/sqlite-remote-vfs/src/client.rs:411-436 | for every split of the ranges into frames, each with consecutive blocks of one range that go on where the frame before ended, exactly the blocks of the ranges are fetched, each under its index |
| `FetchFrames.SplitJoins` | proto/sqlite_remote/v1/sqlite_remote.proto:195-206 | frames that go on where the ones before ended have together the first of the wanted blocks, in order |
| `FetchFrames.OneRange` | crates/sqlite-remote-vfs/src/client.rs:397-404 | for a single range the blocks without their indexes are the range in order |
| `CommitParts.ChunksPartition` | crates/sqlite-remote-vfs/src/database.rs:652-657 | chunks are not empty, all but the last as long as allowed, and joined give the blocks in order |
| `CommitParts.PartsPartition` | crates/sqlite-remote-vfs/src/database.rs:640-673 | the parts carry each modified block once and in index order, and joined leave behind exactly the modified blocks; they have consecutive numbers and equal fields; every part but the last is full and says that more follow; one empty part if only the size changed |
| `CommitParts.InOrderIsAll` | crates/sqlite-remote-vfs/src/pages.rs:120-126 | the modified blocks in index order: strictly ascending, all of them and nothing else |
| `CommitParts.PartsBeginACommit` | crates/sqlite-remote-vfs/src/database.rs:243-247 | a usable client with something to commit can begin it in the protocol with exactly these parts |
| `CommitParts.PartsFit` | crates/sqlite-remote-vfs/src/database.rs:14-17 | every frame encodes to at most the server's limit, for any limit that has room for one page and 221 bytes |
| `Wire.VarintRoundTrip` | proto/sqlite_remote/v1/sqlite_remote.proto:13-16 | a number is read back from its Base 128 Varint whatever bytes follow, and exactly its bytes are taken |
| `CommitParts.BlockRoundTrip` | proto/sqlite_remote/v1/sqlite_remote.proto:255-260 | a block is decoded from its encoding, index and every byte |
| `CommitParts.PartRoundTrip` | proto/sqlite_remote/v1/sqlite_remote.proto:230-253 | so is a part of a commit, with every field and every block in order |
| `CommitParts.FrameRoundTrip` | crates/sqlite-remote-vfs/src/client.rs:522-541 | and the whole frame, with its request id |
| `CommitParts.PerPartIsMost` | crates/sqlite-remote-vfs/src/database.rs:641-643 | the number of blocks in a part is the largest for which the bound on the frame holds |

## Left out

- Sockets, TLS, WebSocket, the `SharedArrayBuffer` handshake, login, signatures, access tokens and slots: a connection delivers frames or breaks, and a login succeeds or is refused with a code.
- `Stats`, timings, pings and `fetch_trace`.
- The VFS callbacks, `MainFile` and `failure_of` in `vfs.rs`, journals and temporary files.
- A server restored from a backup, deletion through slots, and re-creation with another page size.
- Termination of `commit`: it has no bound in the code; `Database.Commit` terminates because the connection and the clock have finitely much in store.
- `checked` (`database.rs:784-806`): an `Opened` with a page size or count SQLite does not allow is not distinguished from a broken connection.
- In `Protocol` the answer to a fetch is one frame; `FetchFrames` shows how several frames make one.
- Request ids are positions in the list of all frames in `Protocol`, and counted by the client in `Link`; `ProtocolMoves` renames the ones to the others. A login that is refused counts as a refused resume there.
- Whether a catch-up is worth it (`database.rs:509-511`) is a choice of the environment in `CopySession`.
- The browser's store for the local copy and its pieces (`copyWrite`, `Copy::write`): one transaction each, in the same format as the pieces modelled here but without a first flag.
- `LocalDatabase`: opening, reading and committing are those of `Pages` over the database in `BrowserLocal`.
- ProtocolTheorems.ReadsSeeTheSnapshot: a block taken from the local copy is one of the session's version in `Protocol`; `CopyReads.CopyServesTheStep` shows this of every run without a stale heal, and `CopyHeal` what happens after one.
- Database.Database.Heal: the local copy is not part of it; its check is one more input that says whether it fails, and it fails as if the server could not be reached. Preloading from the copy is a load that succeeds.
- Database.Database.Reload: always loads from the server; the copy and its catch-up are those of `CopySession`.
- CopyFile.MayLeave: the header page is taken to be replaced as a whole, and anything may be left behind it.
- LocalPieces.SendCommit: numbers are below 2^53, where JavaScript is exact; SQLite's limits are below that.
- Bitmap.Present.Mark: `set` and `clear` of the code in one method.
