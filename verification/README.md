# A verified model of the key/value store, the parallel quicksort and the shell

Three programs of the repository are modelled in Dafny and properties of them are proved for all inputs, all runs
and all schedules. `dafny verify dfyconfig.toml` checks everything.

**The Emrakul key/value store** (`p5`, `p6`), in layers that build on each other:

- `Bytes`, `Murmur3`: C strings and 32-bit integers; the hash function on bit vectors.
- `Stores`: what the table promises, a map whose cells are used up by fresh keys and never come back.
- `Cells`: a row of cells, the wrapping scan that searches it, and the map it stands for.
- `Records`, `HashTable`: 1024-byte records in one flat byte array, and the code of the table on that array, with its
  segment locks. One class serves both versions: a `Config` says how many permits a segment's semaphore has and
  whether records carry deadlines. Key and value buffers are passed as strings without NUL.
- `UserCommands`: version 2's command lines, split, laid out in a 1024-byte buffer and run on the table.
- `Interleaving`, `Safety`, `Progress`, `Solo`: many processes on one table, where every lock, look, field copy and
  unlock is a step of its own and steps interleave in any order, with any clock readings.
- `SingleWriter`, `Races`: when such a table answers like the store, and runs in which it does not.
- `Emrakul`, `Messages`: version 1 as a whole, a master and its workers around one message queue: `Emrakul` as a
  state machine over all interleavings, `Messages` as the code of dispatch and query on message structures.
- `Sums`: adding up permits, messages and remaining work.

**The quicksort** (`p9`): `Quicksort` is the serial code on an array with its specification; `ParallelQuicksort` is a
machine of unfinished calls whose partition loops step in any order over one shared array.

**The shell** (`p4`): `Tokenizer`, `Commands` (grouping of tokens and which commands are executed), `Pipelines` and
`Files` (which descriptors shell and children hold on pipes and on files) and `Shell` (the code of builder and runner
on objects).

Sizes (segments, segment size, workers or permits, capacity) are arbitrary positive numbers, not 8, 128 and 4.

Assumptions worth knowing:

- The master draws message types from 1 up (`p5/master/src/MasterProcess.cpp:128`), but the workers listen on 2 and
  up (line 167) and 1 is the master's own type. Runs assume the range that is meant, 2 to W + 1.
  `Emrakul.OwnTypeEchoes`, `EchoMisleads` and `UnroutedStops` show what a client sees otherwise, and
  `Emrakul.RoutingExact` that the meant range is exactly what is needed.
- In the interleaved model the hash is any function from keys to cells. Looks, copies of one field and unlocks are
  atomic; since a field is copied only under an exclusive lock and read only under a lock, finer steps would add
  nothing.
- A C `int` has 32 bits and is stored lowest byte first. Clock readings and deadlines wrap as the code's do.
- In a quicksort task one turn of the partition loop is one step. `MovesCommute` shows that turns of different tasks
  give the same in either order.
- The shell has descriptors 0 to 2 in use, and a new descriptor has a number not used before. Whether a file can be
  opened, and how each child ends, are arbitrary.

Where code and description differ, the model follows the code: the shell stops for good at the first `&&` or `||` that
fails its test (`Commands.ExecutedIsAndOr` and `Commands.AlwaysAndOr` say when that is what POSIX asks for), a shell that hands a
pipeline to the background keeps the writing ends of its pipes, so that no reader among its commands comes to an end of
input while the shell lives, and a child ended by a signal counts
as having exited with code 0 (`p4/src/CommandItem.cpp:103-105`).

## Model

| member | source | states |
|---|---|---|
| Bytes.ToInt32 | p6/src/PosixHashTable.cpp:197 | a sum stored in a C `int` is the one number in range that differs from it by a multiple of 2^32 |
| Bytes.CStrIs | p5/worker/src/HashTableBase.cpp:180 | the string in a buffer is whatever stands in front of the first NUL |
| Murmur3.FmixBijective | p5/worker/src/HashTableBase.cpp:14-23 | the finalizer has a two-sided inverse on 32-bit words |
| Murmur3.MixBlockInjective | p5/worker/src/HashTableBase.cpp:46-48 | different blocks stay different when mixed |
| Murmur3.RoundInjective | p5/worker/src/HashTableBase.cpp:42-53 | one round of the loop is injective in the running hash and in the block |
| Murmur3.FinishInjective | p5/worker/src/HashTableBase.cpp:60-75 | tail and finalizer are injective in the running hash and in the tail word |
| Murmur3.FoldSeparates | p5/worker/src/HashTableBase.cpp:42-53 | two runs of the loop on block lists that differ in exactly one place end with different hashes |
| Murmur3.OneBlockSeparates | p5/worker/src/HashTableBase.cpp:25-77 | keys of one length that differ in exactly one 4-byte block, or only in the tail, have different 32-bit hashes |
| Murmur3.KnownAnswers | p5/worker/src/HashTableBase.cpp:12-77 | the hash is MurmurHash3 x86-32 with seed 0 on the empty string and on keys with a tail, a block, and both |
| Murmur3.KnownCell | p5/worker/src/HashTableBase.cpp:76 | the cell is the remainder of the hash by the number of cells, on a known key |
| Murmur3.Hash | p5/worker/src/HashTableBase.cpp:25-77 | the loop, the tail switch and the finalizer compute the cell of the specified hash |
| Murmur3.AbsorbTail | p5/worker/src/HashTableBase.cpp:60-68 | the fall-through switch mixes in the tail bytes as one little-endian word |
| Stores.SpentCounts | p6/src/PosixHashTable.cpp:137-221 | whatever commands and garbage collections, in any order, the cells spent are one for each fresh insert, and never more than there are |
| Stores.SetFailsExactly | p6/src/PosixHashTable.cpp:187-207 | after any commands and garbage collections a set fails if and only if its key is absent and as many fresh inserts as cells have been made |
| Stores.DelFailsExactly | p6/src/PosixHashTable.cpp:173-221 | after any commands and collections a delete, and a get, fail if and only if their key is absent |
| Stores.DelRemoves | p6/src/PosixHashTable.cpp:209-221 | after a delete its key is absent, every other key has its entry, and no cell is given back |
| Stores.RepliesFollow | p6/src/PosixHashTable.cpp:173-221 | every answer is the one that earlier commands and their answers call for, with no store in the statement: a get reports the last granted set not deleted or collected since, a delete succeeds on just that, a set is refused exactly for a new key with all cells granted |
| Stores.LiveDated | p6/src/PosixHashTable.cpp:187-207 | after any commands whose sets carry deadlines past 0, every live entry has such a deadline |
| Cells.Config.SegmentOf | p6/src/PosixHashTable.cpp:106 | a cell's segment is one of the segments there are |
| Cells.QuotientIsDivision | p6/src/PosixHashTable.cpp:106 | the counted quotient is the integer division of the code |
| Cells.ProductIsTimes | p5/worker/src/HashTableBase.cpp:85-90 | the counted table size is segments times segment size |
| Cells.FindComplete | p6/src/PosixHashTable.cpp:100-135 | the wrapping two-loop scan misses if and only if no cell of the whole table is a hit, tombstones or not |
| Cells.FindIsLookup | p6/src/PosixHashTable.cpp:100-135 | the scan finds a key exactly when the map has it, and finds its entry |
| Cells.FindIsRoom | p6/src/PosixHashTable.cpp:137-171 | a free cell is found if and only if fresh inserts remain |
| Cells.FreeCellsLeft | p6/src/PosixHashTable.cpp:137-207 | free cells are all cells less one for each fresh insert, whatever was deleted or collected |
| Cells.FillIsSet | p6/src/PosixHashTable.cpp:193-203 | filling a present key's cell, or a free cell with an absent key, is the map's set and keeps keys unique |
| Cells.BuryIsRemove | p6/src/PosixHashTable.cpp:212-217 | a tombstone removes that key and nothing else and frees no cell |
| Cells.BlankIsEmpty | p5/master/src/MasterProcess.cpp:160-161 | the zeroed table stands for the empty map |
| Cells.SweepBuries | p6/src/PosixHashTable.cpp:232-258 | with a clock that does not go back, a sweep makes nothing up, and an entry it leaves has deadline 0 or one not before the first reading |
| Cells.SweepClears | p6/src/PosixHashTable.cpp:232-258 | in a table filled by such sets, with such a clock, a sweep leaves no entry that was dead at its first reading |
| Cells.SweepKeeps | p6/src/PosixHashTable.cpp:232-258 | with such a clock, a sweep keeps every entry whose deadline is at or after the last reading |
| Cells.DeadExactly | p6/src/PosixHashTable.cpp:245-254 | a live key is found dead exactly if it has a deadline and the reading made at its own cell lies past it |
| Cells.SweptIsSweep | p6/src/PosixHashTable.cpp:232-258 | a sweep of the cells is the map without the keys found dead, and frees no cell |
| Records.IntRoundTrip | p6/src/PosixHashTable.cpp:198 | the four bytes of a deadline read back as the deadline |
| Records.WrittenDecodes | p6/src/PosixHashTable.cpp:196-200 | a record after the copies of a set decodes to exactly that key, deadline and value, whatever it held before |
| Records.BuriedDecodes | p6/src/PosixHashTable.cpp:214 | a buried record decodes to the same cell but for its mark |
| Records.ZeroCells | p5/master/src/MasterProcess.cpp:160-161 | zeroed memory decodes to blank cells |
| Records.RecordWritten | p6/src/PosixHashTable.cpp:196-200 | copies inside one record change that cell and leave every byte of the others |
| Records.RecordBuried | p6/src/PosixHashTable.cpp:214 | a mark written into one record changes that cell's mark and leaves every byte of the others |
| HashTable.Table.constructor | p5/master/src/MasterProcess.cpp:143-161 | zeroed memory and full semaphores: the empty store, nothing locked |
| HashTable.Table.Lock | p5/worker/src/SysVHashTable.cpp:28-31 | takes one permit of the segment, or all for a writer |
| HashTable.Table.Unlock | p5/worker/src/SysVHashTable.cpp:33-36 | gives the same number of permits back |
| HashTable.Table.KeyMatches | p5/worker/src/HashTableBase.cpp:116-117 | the string comparison holds if and only if the key field holds the key |
| HashTable.Table.CellHit | p5/worker/src/HashTableBase.cpp:116-117 | the byte tests at a record decide whether its cell is a hit |
| HashTable.Table.Follow | p5/worker/src/HashTableBase.cpp:110-115 | hand-over to another segment leaves exactly that one locked |
| HashTable.Table.Walk | p5/worker/src/HashTableBase.cpp:109-122 | one loop of the scan finds the first hit of its stretch, holding one segment at a time |
| HashTable.Table.Scan | p5/worker/src/HashTableBase.cpp:104-139 | both loops find the first hit of the whole circle, take at most one lock more than there are segments and give all back |
| HashTable.Table.FindFilled | p5/worker/src/HashTableBase.cpp:104-139 | the scan for a key from its own cell, on the bytes |
| HashTable.Table.FindFree | p5/worker/src/HashTableBase.cpp:141-173 | the scan for a cell never used, on the bytes |
| HashTable.Table.Get | p6/src/PosixHashTable.cpp:173-185 | status 0 exactly for a live key, with the copy of its value; nothing stays locked |
| HashTable.Table.WriteRecord | p6/src/PosixHashTable.cpp:196-200 | the copies in their order leave one cell filled with key, deadline and value and all other bytes alone |
| HashTable.Table.Set | p6/src/PosixHashTable.cpp:187-207 | on the byte array, status 0 exactly if the key is live or cells remain, the map then holding value and deadline under the key; only the chosen record's bytes change |
| HashTable.Table.Del | p6/src/PosixHashTable.cpp:209-221 | on the byte array, status 0 exactly if the key was live, and the map afterwards is the old one without the key; only the found record's bytes change |
| HashTable.Table.CollectAt | p6/src/PosixHashTable.cpp:245-254 | one visit buries the record exactly when it is live and past its deadline |
| HashTable.Table.CollectGarbage | p6/src/PosixHashTable.cpp:232-258 | every record is judged by its own clock reading, the map loses exactly the keys found dead, the result is their number, and no cell is freed |
| UserCommands.ParsePrint | p6/src/UserCommand.cpp:75-112 | splitting undoes printing for any tokens without quotes, bare or in quotes, with any blanks between |
| UserCommands.TwoWords | p6/src/UserCommand.cpp:75-112 | any of the six blanks parts two words, and either quote opens what either one closes |
| UserCommands.QuotesLost | p6/src/UserCommand.cpp:75-112 | an unclosed quotation and an empty one are no tokens |
| UserCommands.AtoiPrinted | p6/src/UserCommand.cpp:45-46 | a number printed in decimal, behind blanks and with or without a sign, is read back, whatever follows it |
| UserCommands.SetLineAsks | p6/src/UserCommand.cpp:38-66 | a line of `set`, a printed number and two more words asks for exactly that time to live, or 10 if it is less, and for the first 62 and 955 characters |
| UserCommands.GetLineAsks | p6/src/UserCommand.cpp:30-66 | the requests of lines that begin with `get` and `del` |
| UserCommands.OtherLinesRefused | p6/src/UserCommand.cpp:30-66 | any other line, and a set with fewer than four words, changes nothing and is refused |
| UserCommands.SetLineStores | p6/src/WorkerProcess.cpp:99-148 | from the text of a set line to the store: granted exactly if the key is live or fewer than 1024 cells are spent, and the entry dies n seconds later, or 10 if n is less |
| UserCommands.GetLineFinds | p6/src/WorkerProcess.cpp:99-148 | from the text of a get line: the stored value, or not found |
| UserCommands.DelLineRemoves | p6/src/WorkerProcess.cpp:99-148 | from the text of a del line: the key taken out and the answer whether it was there |
| UserCommands.RequestFits | p6/src/UserCommand.cpp:44-66 | whatever the line, key and value fit a record beside their NULs and a time to live is at least 10 |
| UserCommands.RequestDated | p6/src/UserCommand.cpp:44-50 | a set line stores a deadline past 0 while the clock is not negative and the sum does not overflow |
| UserCommands.ParamsHold | p6/src/UserCommand.cpp:47-66 | key and value copied into the zeroed buffer are both read back whole from there |
| UserCommands.UserCommand.Parse | p6/src/UserCommand.cpp:75-105 | the loop over the characters collects the specified tokens |
| UserCommands.UserCommand.ReadLine | p6/src/UserCommand.cpp:15-73 | operation, time to live and buffer hold what the line asks for, which `SetLineAsks`, `GetLineAsks` and `OtherLinesRefused` tell from its words; every copy stays inside the buffer |
| UserCommands.UserCommand.ExecuteQuery | p6/src/WorkerProcess.cpp:99-148 | table and response after a query are the store's, with the value returned through the command's own buffer |
| UserCommands.SetThenGet | p6/src/UserCommand.cpp:47-66 | on the specification, a value set by one line is returned by the next get whose key has the same first 62 characters, as its first 955 characters; after a refused set nothing is found |
| UserCommands.RunLine | p6/src/UserCommand.cpp:15-73 | a line, through its own buffer and the bytes of the table, gets the response of the store |
| UserCommands.SetAndGet | p6/src/UserCommand.cpp:47-66 | the same through buffers and records: a client that sets and then gets under a key with the same first 62 characters receives the first 955 characters of the value |
| UserCommands.SetCollectGet | p6/src/UserCommand.cpp:38-66 | a client that sets a value for n seconds, in text, gets it back after a garbage collection whose readings are all within n seconds (10 if n is less) of the set, and does not once all are past that |
| Interleaving.StepLocal | p6/src/PosixHashTable.cpp:100-258 | a step changes cells only in a segment the process holds for writing, and frees none |
| Interleaving.StepConserves | p5/worker/src/SysVHashTable.cpp:16-36 | permits only move between a semaphore and the process |
| Safety.StepInv | p6/src/PosixHashTable.cpp:100-258 | every step of every process keeps the invariant: permits conserved, each record whole or being written by one process that relies on what it has copied |
| Safety.UnlockedWhole | p6/src/PosixHashTable.cpp:187-258 | in every run, while a segment's lock is free each of its records is blank or holds key, deadline and value of one completed set |
| Safety.GetReportsSet | p6/src/PosixHashTable.cpp:173-185 | in every run, a get that succeeds reports the whole value of some completed set |
| Safety.NeverFreeAgain | p6/src/PosixHashTable.cpp:187-258 | in every run, a cell once used is never free again |
| Safety.PermitsAddUp | p5/worker/src/SysVHashTable.cpp:16-36 | in every state of every run, free permits plus readers plus W times writers is W for each segment |
| Safety.WriterAlone | p5/worker/src/SysVHashTable.cpp:28-36 | a writer shares its segment with no reader and no other writer |
| Safety.ReaderWaitsForWriter | p5/worker/src/SysVHashTable.cpp:28-31 | with at most W processes a reader finds no permit only if exactly one writer holds the segment |
| Races.SetsClash | p6/src/PosixHashTable.cpp:187-207 | on any table, two sets of different keys with the same own cell can both be granted that cell; the second wipes out the first |
| Races.SetIsLost | p6/src/PosixHashTable.cpp:173-207 | on any table and for any two such keys there is a run in which a process's own get, after its granted set and with nobody removing anything, does not find the key |
| Races.NoOrderExplains | p6/src/PosixHashTable.cpp:173-207 | whatever the number of cells, no order of these three operations that keeps the first process's own gives those replies: the table is not linearizable |
| Races.KeyLandsTwice | p6/src/PosixHashTable.cpp:187-221 | on any table of more than one cell there is a run after which one key stands in two cells with both its sets granted, and its continuation with a delete that starts only then, is granted, and leaves the key alive |
| SingleWriter.CellStays | p6/src/PosixHashTable.cpp:187-258 | as one process writes, a key that stays in the table stays in its cell, and a cell given up keeps its value and is not used again |
| SingleWriter.RunHolds | p6/src/PosixHashTable.cpp:100-258 | in every run with one writing process at most, that process and every reader keep their relation to the cells as seen between writes |
| SingleWriter.WriterAnswers | p6/src/PosixHashTable.cpp:173-258 | each operation of the only writer, collections included, takes the store at its beginning to the store at its end as one command, with that command's answer |
| SingleWriter.CollectEnds | p6/src/PosixHashTable.cpp:232-258 | a collection among readers sweeps exactly the cells of its beginning, each judged by a clock reading made at that cell, and reports how many entries it removed |
| SingleWriter.WriterIsSequential | p6/src/PosixHashTable.cpp:173-258 | in every run in which all processes but one only get, the outcomes of that one are the store's answers in program order, and between its operations the table is the store those commands leave |
| SingleWriter.GetsAreAtomic | p6/src/PosixHashTable.cpp:100-185 | in every such run each get of the others reports what the store has for its key in some state between its beginning and its end |
| SingleWriter.StoreMoves | p6/src/PosixHashTable.cpp:187-258 | in every such run the store changes only in a step of the writer, and then by a command of the operation under way |
| SingleWriter.SetsAreDated | p6/src/PosixHashTable.cpp:197-198 | in any run, of any processes, a granted set reports and has stored its time to live plus a clock reading made while it was under way |
| Progress.NeverStuck | p5/worker/src/HashTableBase.cpp:104-224 | in every state that keeps the invariant, if some operation is unfinished some process can step |
| Progress.RunsEnd | p5/worker/src/HashTableBase.cpp:104-224 | every step uses up work, so a run is no longer than the work there was at its start |
| Progress.ProgramKept | p5/worker/src/HashTableBase.cpp:104-224 | operations done and to come are always the process's program, in order |
| Progress.EndsComplete | p5/worker/src/HashTableBase.cpp:104-224 | a run that cannot go on has completed every operation, left every semaphore at its initial value and every record whole |
| Progress.LocksBounded | p5/worker/src/HashTableBase.cpp:104-173 | in every run a scan locks at most one segment more than there are |
| Solo.SoloStep | p5/worker/src/HashTableBase.cpp:104-224 | an operation whose process steps while the others rest ends with the store's answer and cells that hold the store's next state |
| Emrakul.EventInv | p5/master/src/MasterProcess.cpp:116-233 | every event of master or worker keeps the invariant that ties queue, workers and table to the sequential store |
| Emrakul.AnswersAreSequential | p5/master/src/MasterProcess.cpp:116-141 | for every routing to 2..W+1 and every interleaving, the responses sent (answer, value, connection) are those of running the queries in order on one map with limited fresh inserts |
| Emrakul.GetIsTold | p5/master/src/MasterProcess.cpp:200-208 | a get is answered with the value stored under its key, and with not found exactly if there is none |
| Emrakul.SetIsTold | p5/master/src/MasterProcess.cpp:210-217 | a set is stored exactly if its key is live or cells remain, and then the key has its value |
| Emrakul.DelIsTold | p5/master/src/MasterProcess.cpp:219-226 | a delete succeeds exactly on a live key and takes out that key alone |
| Emrakul.ResponsesFollow | p5/master/src/MasterProcess.cpp:116-141 | in every run each response is the one that the clients' earlier queries and responses call for, with no store in the statement: the last value stored, deletes of what is there, refusal exactly when as many new keys as cells have been stored |
| Emrakul.OneInFlight | p5/master/src/MasterProcess.cpp:130-136 | until shutdown, messages in the queue plus workers serving are exactly one while the master waits and none otherwise |
| Emrakul.SpentBounded | p5/worker/src/HashTableBase.cpp:189-210 | over a whole life no more fresh inserts succeed than there are cells |
| Emrakul.ShutdownComplete | p5/master/src/MasterProcess.cpp:175-184 | in a run that reaches it, once the master is gone all workers have stopped, the queue is empty, and nothing was sent to a client since the shutdown began |
| Emrakul.TakeTerm | p5/worker/src/WorkerProcess.cpp:54-56 | a worker that stops has consumed its own termination, and every other one is still there once |
| Emrakul.SystemRunsEnd | p5/master/src/MasterProcess.cpp:116-184 | every event uses up work: every run of the whole system is bounded |
| Emrakul.SystemNeverStuck | p5/master/src/MasterProcess.cpp:116-184 | until the master is gone some event can happen; while a query waits, one that serves it |
| Emrakul.ReadyCanServe | p5/master/src/MasterProcess.cpp:116-130 | a waiting query can be sent to any worker, or refused |
| Emrakul.SystemEnds | p5/master/src/MasterProcess.cpp:116-184 | a run that nothing can continue has ended in the shutdown: master gone, all workers stopped, queue empty, responses those of the queries served |
| Emrakul.ServiceEnds | p5/master/src/MasterProcess.cpp:116-141 | a run that only the order to stop could continue has answered every query as the sequential store does |
| Emrakul.ServiceNeverStuck | p5/worker/src/WorkerProcess.cpp:17-65 | while the master waits for a reply, a worker or the master can step |
| Emrakul.ShutdownNeverStuck | p5/master/src/MasterProcess.cpp:175-184 | during shutdown the master can post, a worker can stop, or the wait is over |
| Emrakul.OwnTypeEchoes | p5/master/src/MasterProcess.cpp:128 | a command sent with type 1 is received back by the master itself, answered by whether an uninitialized status is 0, and never reaches the table |
| Emrakul.RoutingExact | p5/master/src/MasterProcess.cpp:128 | a send keeps the invariant, whatever the status field holds, if and only if its type is one of 2..W+1 |
| Emrakul.EchoMisleads | p5/master/src/MasterProcess.cpp:128 | wherever a command waits to be sent, with type 1 some status makes the client's answer differ from the sequential store's |
| Emrakul.UnroutedStops | p5/master/src/MasterProcess.cpp:128 | with type 0 or one above W+1 nothing happens after the send: no worker takes the message and the client gets no answer |
| Messages.MessageQueue.Send | p5/master/src/MasterProcess.cpp:192-194 | a message goes to the end of the queue |
| Messages.MessageQueue.Receive | p5/worker/src/WorkerProcess.cpp:22-26 | the first message of the type is taken out and the others keep their order |
| Messages.CommandMessage.PutValue | p5/worker/src/WorkerProcess.cpp:46-48 | a found value overwrites the value field and leaves the key |
| Messages.RunOnTable | p5/worker/src/WorkerProcess.cpp:40-52 | status, value field and table after the operation are the sequential store's |
| Messages.DispatchMessage | p5/worker/src/WorkerProcess.cpp:36-65 | a message is answered by one of the master's type that says what the store answers, or that it was no command; a termination, whatever its data, sends nothing and returns 1 |
| Messages.Serve | p5/worker/src/WorkerProcess.cpp:22-31 | a worker turns the one message in the queue into its reply |
| Messages.ServeNext | p5/worker/src/WorkerProcess.cpp:22-31 | one turn of the receive loop takes the first message of the worker's type and appends its reply, leaving the others in order |
| Messages.ReceiveSelects | p5/worker/src/WorkerProcess.cpp:22-26 | what is received is the first of its type, and the other types are untouched |
| Messages.Start | p5/worker/src/WorkerProcess.cpp:17-34 | on any queue, the loop serves the messages of its type in order up to the first termination, each as the sequential store; it takes these and posts its replies, nothing else |
| Messages.MasterProcess.ExecuteQuery | p5/master/src/MasterProcess.cpp:116-141 | from the query's buffer through the queue and the bytes of the table to the client, the command is posted with its type, the response is the sequential store's and the queue is empty again; with the master's own type the client gets what the uninitialized status says and the table is not asked |
| Messages.OneKeySession | p5/master/src/MasterProcess.cpp:116-141 | a client's set, get, delete and get of one key, through buffers, queue and records: it is told stored exactly if the key was live or cells remained, then the string in its own buffer's value field, then deleted, then not found |
| Messages.MasterProcess.ProcessResponseFromWorker | p5/master/src/MasterProcess.cpp:196-233 | status 0 tells the client the string in the reply's value field, stored or deleted, by the operation, and any other status that the key was not found; for this `DispatchMessage` proves the store's answer |
| Messages.MasterProcess.PostTerminations | p5/master/src/MasterProcess.cpp:175-181 | one termination for each worker's own type joins the queue, in order, and nothing is taken |
| Messages.MasterProcess.WaitForWorkers | p5/master/src/MasterProcess.cpp:183 | from such a queue each worker takes its own termination and stops; exactly these are taken and nothing is posted |
| Messages.MasterProcess.ShutdownWorkers | p5/master/src/MasterProcess.cpp:175-184 | over the whole shutdown exactly one termination per worker is posted and exactly these are taken; the queue is empty, the table unchanged and nothing sent |
| Quicksort.PartitionParts | p9/src/qsort.c:11-20 | the loop leaves elements up to the pivot's place not above the pivot and those after it above |
| Quicksort.PartitionRearranges | p9/src/qsort.c:13-20 | the loop only rearranges its range |
| Quicksort.SortRearranges | p9/src/qsort.c:9-24 | sorting rearranges the range and touches nothing outside it |
| Quicksort.SortSorts | p9/src/qsort.c:9-24 | the range is sorted afterwards |
| Quicksort.ComparisonsBounded | p9/src/qsort.c:9-24 | sorting n elements compares at most n(n+1)/2 - 1 times with a pivot |
| Quicksort.SortedWorst | p9/src/qsort.c:9-24 | the bound is met by every sorted range |
| Quicksort.WorstIs | p9/src/qsort.c:9-24 | the bound, summed up, is n(n+1)/2 - 1 |
| Quicksort.StdQsortInner | p9/src/qsort.c:9-24 | the code in place leaves the specified array and makes the specified number of comparisons |
| Quicksort.StdQsort | p9/src/qsort.c:26-28 | the whole array is sorted, a permutation of the input, within the bound on comparisons |
| ParallelQuicksort.StepInv | p9/src/qsort.c:30-55 | a step of any unfinished call keeps the invariant: ranges ordered and disjoint, a permutation of the input, and every pair in order that no call has in its range |
| ParallelQuicksort.AlwaysPermutation | p9/src/qsort.c:30-55 | in every reachable state the array is a permutation of the input |
| ParallelQuicksort.RangesDisjoint | p9/src/qsort.c:30-55 | in every reachable state no position lies in the ranges of two calls |
| ParallelQuicksort.ScheduleIrrelevant | p9/src/qsort.c:30-65 | whatever the schedule, a run that leaves no call open leaves exactly the array of the serial sort |
| ParallelQuicksort.RunsBounded | p9/src/qsort.c:30-65 | no schedule of n elements takes more than n*n + 3n + 1 steps |
| ParallelQuicksort.NeverStuck | p9/src/qsort.c:43-53 | in every reachable state with a call open some call can step |
| ParallelQuicksort.MovesCommute | p9/src/qsort.c:34-41 | turns of two tasks' partition loops give the same state in either order |
| ParallelQuicksort.SortedUnique | p9/src/qsort.c:57-65 | there is one sorted arrangement of given elements |
| Tokenizer.OneBuffer | p4/src/CmdInterperter.cpp:17-52 | after any part of any line at most one of the three buffers is in use, and each holds only what belongs in it |
| Tokenizer.TokensAreTokens | p4/src/CmdInterperter.cpp:14-58 | every token is a word, a run of operator characters, one redirection character, or a closed quotation |
| Tokenizer.TextKept | p4/src/CmdInterperter.cpp:14-58 | the tokens put together are the line less unquoted blanks and less an unclosed quotation at its end |
| Tokenizer.WordsApart | p4/src/CmdInterperter.cpp:27-47 | two words are told apart by each of the blanks, by `<`, `>` and `;` as tokens of one character, and by `&`, `&&` and their kind as one token |
| Tokenizer.QuotesHold | p4/src/CmdInterperter.cpp:19-46 | a quotation is one token with its quotes, whatever else stands in it |
| Tokenizer.QuoteLost | p4/src/CmdInterperter.cpp:54-57 | an unclosed quotation is no token |
| Tokenizer.JoinSplits | p4/src/CmdInterperter.cpp:14-58 | any list of well-formed tokens written with single spaces is split into itself |
| Tokenizer.Stable | p4/src/CmdInterperter.cpp:14-58 | splitting again the tokens of a line joined by spaces changes nothing |
| Tokenizer.CmdInterpreter.CollectTokenFromBuffer | p4/src/CmdInterperter.cpp:60-65 | a non-empty buffer becomes a token and is emptied |
| Tokenizer.CmdInterpreter.TokenizeLine | p4/src/CmdInterperter.cpp:14-58 | the loop computes the specified tokens; earlier ones are forgotten and the text is kept |
| Commands.ItemsKeep | p4/src/CmdInterperter.cpp:67-105 | commands and operators alternate and, written out, are the tokens: none lost, none moved |
| Commands.UngroupItems | p4/src/CmdInterperter.cpp:67-105 | every alternating list is what its own tokens are grouped into |
| Commands.JoinedItems | p4/src/CmdInterperter.cpp:85-96 | what each of the four operator texts between two commands, or at the end, is grouped into |
| Commands.ExecutedFirst | p4/src/LisonShell.cpp:51-70 | the executed commands are the first ones of the line, in order |
| Commands.ExecutedExactly | p4/src/LisonShell.cpp:51-70 | a command is executed if and only if every `&&` before it follows a code 0 and every double bar before it another code |
| Commands.JoinedRuns | p4/src/LisonShell.cpp:51-70 | from tokens: of two commands joined, the second is executed after code 0, after another code, or always |
| Commands.ExecutedIsAndOr | p4/src/LisonShell.cpp:51-70 | they are a prefix of what section 2.9.3 of the POSIX Shell Command Language executes, and all of it if and only if no operator of the other kind follows the one that stopped |
| Commands.StopsTooEarly | p4/src/LisonShell.cpp:64-67 | `false && a` joined by the other operator to `b`: the shell executes the first command only, POSIX the first and the last |
| Commands.MixedDiffers | p4/src/LisonShell.cpp:64-67 | for every list with both operators there are exit codes with which the shell executes something else than POSIX |
| Commands.AlwaysAndOr | p4/src/LisonShell.cpp:51-70 | the shell executes a list as POSIX has it, whatever the exit codes, if and only if the list does not mix the two operators |
| Pipelines.Moved | p4/src/CommandItem.cpp:46-48 | closing, duplicating and closing moves a descriptor to a standard one and leaves all others |
| Pipelines.PipeKeepsWired | p4/src/CmdInterperter.cpp:107-120 | each pipe made is tied to the commands on its two sides and disturbs no other |
| Pipelines.WiredReady | p4/src/CommandItem.cpp:42-97 | when a command's turn comes it has its own pipe ends open, under one descriptor each |
| Pipelines.ChildReads | p4/src/CommandItem.cpp:44-66 | a child has its input pipe only as descriptor 0 and its output pipe only as 1, and neither the writing end of its input nor the reading end of its output |
| Pipelines.InputWillEnd | p4/src/CommandItem.cpp:68-77 | when a command is forked the shell holds no writing end of its input pipe |
| Pipelines.RunKeepsWired | p4/src/CommandItem.cpp:68-77 | running a command closes its own ends, which are open until then, and no other |
| Pipelines.RunClosesOnce | p4/src/CommandItem.cpp:68-77 | over a run each end of a command that ran has been closed once, and the others not at all |
| Pipelines.OpenExactly | p4/src/CommandItem.cpp:68-77 | after any run a pipe end is open in the shell if and only if the command it belongs to has not run |
| Pipelines.NothingLeaks | p4/src/CommandItem.cpp:68-77 | a line run to its end leaves none of its pipe ends open |
| Shell.Process.Open | p4/src/CommandItem.cpp:23-32 | an opened file gets an unused descriptor, and a failure -1 |
| Shell.Process.Pipe | p4/src/CmdInterperter.cpp:112-113 | two unused descriptors become the ends of a new pipe |
| Shell.Process.Close | p4/src/CommandItem.cpp:71-77 | closing takes the descriptor out of the table and is recorded |
| Files.RedirectedConcat | p4/src/CommandItem.cpp:22-36 | the arguments of words put together are the arguments put together, and of two redirections in a direction the later holds |
| Files.LastNamed | p4/src/CommandItem.cpp:23-32 | a last `<` names the input and a last `>` the output, neither touching the other or the arguments |
| Files.ArgumentsOnly | p4/src/CommandItem.cpp:33-35 | words without redirections are the arguments and leave both files unnamed |
| Files.ChildFiles | p4/src/CommandItem.cpp:44-66 | where no pipe takes its place, the last named input file stands under descriptor 0 of the child and the last named output file under 1, or nothing if it could not be opened; a child with neither has the shell's own |
| Files.RunKeepsLaid | p4/src/CommandItem.cpp:68-77 | running a command closes its own pipe ends and files in the shell and leaves those of later commands, and the standard descriptors, as they are |
| Shell.CommandItem.constructor | p4/src/CommandItem.cpp:11-40 | arguments and files are those that `Files` tells from the words, each file that could be opened under a new descriptor of its own direction |
| Shell.CommandItem.RedirectStdin | p4/src/CommandItem.cpp:87-91 | input and other side are set and the rest of the wiring kept |
| Shell.CommandItem.RedirectStdout | p4/src/CommandItem.cpp:93-97 | output and other side are set and the rest of the wiring kept |
| Shell.CommandItem.BecomeCommand | p4/src/CommandItem.cpp:44-66 | the closes and duplications of the child lead to the specified descriptor table |
| Shell.CommandItem.Run | p4/src/CommandItem.cpp:42-85 | a child is forked with the command's arguments and the specified descriptors, the shell's closes are recorded, and the status is the child's |
| Shell.BuildElements | p4/src/CmdInterperter.cpp:67-105 | the loop builds distinct commands and operators for the specified items (`JoinedItems` ties them to their texts), each command with its arguments and files |
| Shell.BuildCommandSequence | p4/src/CmdInterperter.cpp:67-122 | whatever earlier lines have left open, the sequence stands for the items, and every pipe operator has its pipe, tied to both neighbours |
| Shell.PipesInside | p4/src/CmdInterperter.cpp:115-116 | in a line that does not end in a pipe operator, every pipe operator has a command on both sides |
| Shell.RunSequence | p4/src/LisonShell.cpp:51-70 | the loop runs exactly the specified commands in order, each child with its arguments, pipes and files right, leaves open exactly the ends of those that did not run, and has closed what the others had open |
| Shell.RunSequenceInBackground | p4/src/LisonShell.cpp:72-81 | the same by a forked copy, while the shell keeps all its descriptors |
| Shell.ExecuteLine | p4/src/LisonShell.cpp:83-100 | the same from the text of the line, in the foreground or the background; after a background line the shell still holds every end of every pipe, writing ends included |
| Shell.ExecuteJoined | p4/src/LisonShell.cpp:83-100 | from text: two commands are forked in order with their arguments, after `&&` the second exactly if the first did not exit with another code than 0, after the double bar exactly if it did, else always |
| Shell.ExecuteWithFiles | p4/src/LisonShell.cpp:83-100 | from text: a command with `<` and `>` is forked once, with each file under its own standard descriptor or, if it cannot be opened, nothing there, and with the shell's errors |

## Left out

- libevent callbacks, sockets, connection lists, descriptor passing and the p3 proxy: their behaviour lies in libraries.
- p10: splitting a range over ranks would add an easy member, and its floating-point sums are not modelled.
- Copies of modelled files (`p5/master/src/HashTableBase.cpp`, both `UserCommand.cpp` files of p5): nothing new.
- Real `fork`, `exec`, `wait` and signals: a child is its descriptor table and an arbitrary way to end.
- Shell.CommandItem.Run: the child of a failing `execvp` goes on in the original as a second shell on the rest of the line; here every `execvp` succeeds.
- Close-on-exec: a child's table is the one just before `execvp`; files opened for other commands are closed there.
- A line that ends in `|`, or in `<` or `>` without a file name: the original reads past the end of a vector.
- Failing or interrupted `semop`, `sem_wait`, `msgsnd` and `msgrcv`, failing `pipe`, and processes that die while holding a lock.
- Start-up races: the models start from a zeroed table with all processes attached.
- `get_ttl` of the version 2 table: a locked read of one deadline, as in the sweep.
- Reply texts are constructors, not strings, and logging is left out; the `;` operator is not listed as an operator by the original.
- Linearizability and uniqueness of keys in version 2 with several writing processes: they fail, since scan and write are two critical sections. `Races` gives the runs, on every table for two keys with the same own cell and on every table of more than one cell for one key; what holds for any processes is in `Safety` and `Progress`.
- SingleWriter.WriterIsSequential: one way only; programs with two writers may also answer like the store, for instance if no set is among them, and which do is not characterized.
- Quicksort on elements other than `int`, and the limit of two threads: any number of tasks may step here.
- Interleaving.StepLocal: copies of one field are one step each, not one byte at a time.
- UserCommands.UserCommand.ReadLine: the number is read without bound, where `atoi` is undefined beyond an `int`; retries of `evbuffer_readln` are left out, and the line is given.
- Messages.Serve: a queue that holds one message, as the master leaves it; any queue is `Messages.Start`, and other schedules are events of `Emrakul`.
- Messages.MasterProcess.ShutdownWorkers: from an empty queue, as `Emrakul` shows it to be then, with the workers stopping in order; all schedules are `Emrakul.SystemEnds`.
- HashTable.Table.Lock: by itself it is called with the permits there; waiting for them is a step of `Interleaving`.
