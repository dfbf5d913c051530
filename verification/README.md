# CFTP server: a verified model

A Dafny model of the parts of the CFTP FTP server that carry its promises. `dafny verify dfyconfig.toml`
checks all of it.

* **The hash table** (`Fnv1a`, `ChainedTable`, `HashTables`, `HashTableRuns`). Chains of heap nodes in
  an array of buckets, with the insertion, deletion and doubling of the C code on the heap. The class
  refines a table of values, and every run of it is a run of a finite map. `elem_count` counts fresh
  insertions and is never decremented, so it bounds the live entries from above.
* **The command line** (`CommandParser`, `CommandPrinter`, `CommandSpelling`, `Dispatch`, `CommandWords`,
  `RootCommands`, `Interprocess`). The tokenizer's loops against a recursive tokenizer, a printer that it
  inverts and every other way to spell a line, the dispatch through the hash table, and the UID/GID
  questions a child process asks its parent.
* **A session** (`Session`, `Connections`, with `PassiveMode` and `Disks`). `Session` gives what each
  command and each event does to the connection record, the event loop and the files. `Connections` holds
  the object that is updated in place, one method for each callback, and the loop that drives it; each
  method is proved to be the step of `Session`. Files are numbers with contents, as open descriptors know
  them, and names lead to them, so that CWD, DELE, links and a STOR into a file being sent have the effect
  they have. What holds after every run, for any order of lines, accepts, segments, handshakes, partial
  writes, ends of stream and timers, is proved in `SessionInvariant`, `SessionFrames`, `SessionLogin`,
  `SessionUpload` and `SessionReading`, `SessionDownload`, `SessionListing` and `SessionEndings`,
  `SessionPlaces`, `SessionPassive`, `SessionTimers`, `SessionReplies`, `SessionControl`, `SessionModes` and
  `SessionScenario`.
* **Recursive delete** (`FileTree`, `RecursiveDelete`, `DeleCommand`) over a mutable file tree in which
  any operation on any path may be refused.
* **The configuration** (`ConfigSpec`, `ConfigRender`, `ConfigReader`, `ServerStates`). The reader with
  its line buffer edited in place, a renderer that it inverts, and the 16-bit port range the passive
  scan then walks.

`Options`, `Text`, `CommandOptions` and `Replies` hold what several modules share. A line of text is the
bytes before its NUL.

Where the code does not do what its replies suggest, the exact condition is proved:

* A timer of an earlier PASV closes a later one's listener. `SessionTimers.OwnTimersExactly` says in
  which runs every listener is closed by its own timer only; `SessionScenario.TwoPasvs` is a run in which
  one is not.
* A LIST answered 150 over TLS sends its listing with the handshake and in no other way.
  `SessionListing.ListingGoesOutWithTheHandshake` says when that happens, `ListsTheDirectoryNamed` when it
  is the listing of the directory named, and `StorCancelsListing` that a STOR in between prevents it;
  `SessionScenario.ListIsReached` reaches both cases.
* A RETR can remain unanswered (`SessionReplies.EveryLineIsAnswered`), and a completion can be reported more
  than once (`SessionEndings.CompletionRepeats`). A file that grows by two bytes or more while it is sent is
  never reported complete (`SessionDownload.OverrunForever`); one byte more, and a failed read is
  (`FailedReadCompletes`). A STOR whose TLS handshake came first keeps everything in
  memory until the end of the stream (`SessionReading.WrittenAsItArrives`).
* The passive scan never ends when its range ends at 65535 and no port can be bound
  (`PassiveMode.ScanForeverExactly`); `ServerStates.ConfiguredScanForever` gives a configuration with such
  a range.
* After the counter has wrapped, port 0 can be announced while the system listens elsewhere
  (`SessionPassive.AnnouncedExactly`).
* A name of 255 bytes or more answers the next question of a child as well
  (`Interprocess.NextAnswerExactly`).

What a run may contain is said by `Session.Enabled`: a connection is accepted only by a live listener
and while no data connection is open, data events come only on an open one, a handshake comes once and
only on a TLS connection, only armed timers fire, a line is what one read takes, nothing comes after the
control connection is gone, and the passive scan ends.

## Model

| member | source | states |
|---|---|---|
| `Fnv1a.Fnv1aStringHash` | src/core/structures/hashmap.c:35-45 | the loop over the bytes returns the 64-bit FNV-1a hash, a word below 2^64 |
| `Fnv1a.HashOneMore` | src/core/structures/hashmap.c:35-45 | in binary digits: the hash of one more byte is 0x100000001B3 times the one number that differs from the hash before it exactly where the byte has a 1, modulo 2^64, and the empty string has the offset basis |
| `Fnv1a.HashConcat` | src/core/structures/hashmap.c:35-45 | the hash of a concatenation continues from the hash of its first part |
| `Fnv1a.SuffixPreservesCollisions` | src/core/structures/hashmap.c:35-45 | strings with a common suffix collide exactly when what precedes the suffix collides |
| `Fnv1a.OneByteChangesHash` | src/core/structures/hashmap.c:35-45 | changing exactly one byte of a string always changes its hash |
| `ChainedTable.RehashPreserves` | src/core/structures/hashmap.c:173-208 | relinking into a new bucket array keeps the multiset of entries and every lookup, and puts each entry into the bucket of its hash modulo the new length, keys still distinct |
| `ChainedTable.InsertCorrect` | src/core/structures/hashmap.c:99-212 | an insertion keeps the invariant, binds exactly the key, always succeeds, reports UPDATED exactly when the key was bound, counts only fresh keys, and RESIZED exactly when the length doubled; the invariant bounds the load, 4*(elem_count+1) < 3*length, with length 21 times a power of two, so one doubling always suffices |
| `ChainedTable.InsertSize` | src/core/structures/hashmap.c:146-165 | a fresh key adds exactly one entry, and the table is resized exactly when 3*length <= 4*(elem_count+2) for the count before it |
| `ChainedTable.ResizeMovesAll` | src/core/structures/hashmap.c:166-209 | the entries relinked by a resize are all those present, the new one included |
| `ChainedTable.DeleteCorrect` | src/core/structures/hashmap.c:294-351 | a deletion keeps the invariant, unbinds exactly the key and removes exactly one entry, or fails exactly when the key is not bound and changes nothing; elem_count stays |
| `ChainedTable.CollisionExact` | src/core/structures/hashmap.c:146-158 | the COLLISION flag of a fresh insertion is set exactly when another bound key has the same hash modulo the length |
| `ChainedTable.StepRefines` | src/core/structures/hashmap.c:94-351 | insert, delete, lookup and exists on a table that stands for a finite map leave one that stands for the updated map, with the same answers and success flags |
| `ChainedTable.RunRefines` | src/core/structures/hashmap.c:94-351 | the same over any sequence of operations |
| `ChainedTable.TableIsMap` | src/core/structures/hashmap.c:47-351 | every run from a fresh table gives the answers of a finite map from strings, and the table still stands for that map at the end |
| `ChainedTable.AmortisedResizeCost` | src/core/structures/hashmap.c:70-92 | the nodes moved by all resizes of any run are at most twice elem_count |
| `HashTables.FindInChain` | src/core/structures/hashmap.c:239-250 | walking the next links returns the first node with that key, or null at the end of the chain |
| `HashTables.PushNode` | src/core/structures/hashmap.c:148-158 | linking a node in front of a bucket on the heap puts it first in that chain and changes no other |
| `HashTables.MoveStep` | src/core/structures/hashmap.c:184-202 | one turn of the relinking loop: the head of the old chain leaves it and joins the new table, the rest of both as before |
| `HashTables.MoveChain` | src/core/structures/hashmap.c:179-203 | the while loop empties one old bucket, moving each of its nodes exactly once |
| `HashTables.MoveAll` | src/core/structures/hashmap.c:166-208 | the whole resize: the same set of nodes, each in its place in the new array, with no node lost, doubled or on a cycle, and as many steps as entries |
| `HashTables.UnlinkAfter` | src/core/structures/hashmap.c:334-342 | linking the predecessor to the successor takes exactly that node out of the chain |
| `HashTables.HashTable.constructor` | src/core/structures/hashmap.c:48-68 | a fresh table is the empty table of 21 buckets |
| `HashTables.HashTable.GetPtrToElemByKey` | src/core/structures/hashmap.c:214-251 | the node found is the one of the key's bucket with that key, null exactly when the key is not bound |
| `HashTables.HashTable.CheckKeyExists` | src/core/structures/hashmap.c:94-97 | answers whether the key is bound |
| `HashTables.HashTable.GetPtrToValueByKey` | src/core/structures/hashmap.c:253-260 | answers what the key is bound to, NULL when it is not bound |
| `HashTables.HashTable.Grow` | src/core/structures/hashmap.c:162-209 | the heap table after a resize is the rehashed one of twice the length, and the move counter has grown by the number of entries |
| `HashTables.HashTable.InsertEntry` | src/core/structures/hashmap.c:99-212 | the heap table and the returned flags are those of the specified insertion; an update allocates no node |
| `HashTables.HashTable.DeleteEntry` | src/core/structures/hashmap.c:294-351 | the heap table and the returned flags are those of the specified deletion; a failed one leaves the nodes alone |
| `HashTableRuns.Perform` | src/core/structures/hashmap.c:94-351 | one operation on the heap table answers as the specified step, and the move counter grows by what the step moves |
| `HashTableRuns.RunAll` | src/core/structures/hashmap.c:47-351 | any sequence of operations on a fresh heap table is answered as by a finite map, which the table stands for in the end, and its resizes have moved at most twice elem_count nodes |
| `CommandParser.ScanArgAt` | src/engine/command_parser.c:142-178 | the quoting and escaping loop stops where the recursive scanner of one argument stops, with the same bytes |
| `CommandParser.ParseArgsAt` | src/engine/command_parser.c:135-184 | the argument loop yields the list of the recursive tokenizer |
| `CommandParser.ParseTextCommand` | src/engine/command_parser.c:118-185 | the loops of the parser refine the recursive tokenizer and end on every input |
| `CommandPrinter.ParseInvertsPrint` | src/engine/command_parser.c:118-185 | printing any upper-cased, space-free command of 1 to 4095 bytes and up to 256 NUL-free arguments of at most 4095 bytes with every byte escaped, with any white space around, and parsing the line gives back the command and its arguments |
| `CommandPrinter.ParseIsCanonical` | src/engine/command_parser.c:118-185 | whatever the line, the parse is such a command: at most 256 arguments of at most 4095 bytes, and none when the command is empty |
| `CommandPrinter.PrintNormalises` | src/engine/command_parser.c:118-185 | parsing, printing and parsing again is the same as parsing once, for every line |
| `CommandPrinter.ArgumentsComeFromLine` | src/engine/command_parser.c:135-184 | the arguments put together are a subsequence of the line behind the command word |
| `CommandPrinter.QuotedArgumentExact` | src/engine/command_parser.c:148-160 | an argument in double quotes without quotes or backslashes inside is read back exactly when it has fewer than 4095 bytes |
| `CommandSpelling.ArgumentExactly` | src/engine/command_parser.c:142-178 | the scanner of an argument, both ways: these bytes are read and this is left exactly when the text is some mixture of plain, escaped and quoted characters for the one, complete before the other: at the end, at unquoted white space, or with the buffer full |
| `CommandSpelling.ParseReadsAnySpelling` | src/engine/command_parser.c:118-185 | a word in any letter case and up to 256 arguments, each in any mixture of quotes, escapes and plain characters, with any white space, parse as the word in capitals and those arguments |
| `Dispatch.LastIsFirst` | src/actions/command_actions.h:73-139 | because the names in the table are distinct, the last row registered under a name is the first one a scan finds |
| `Dispatch.TableNamesDistinct` | src/actions/command_actions.h:73-139 | the 24 rows of the table have different names |
| `CommandWords.SelectExactly` | src/actions/command_actions.h:73-139 | every control word runs its own action or, in the wrong login state, the refusal for that state, and every other word the invalid-command action |
| `Dispatch.RegisterCommand` | src/engine/command_parser.c:218-228 | registering one more row makes the hash table answer as the rows registered so far, and never fails |
| `Dispatch.InitializeExecutionEngine` | src/engine/command_parser.c:230-250 | after initialisation the registry answers as the whole table, has 42 buckets, and its one resize moved 15 nodes |
| `Dispatch.ExecuteFtpCommand` | src/engine/command_parser.c:96-116 | any line selects the handler a scan of the table for its upper-cased first word names for the login state, the invalid-command handler when there is none |
| `RootCommands.ExecuteRootCommand` | src/engine/command_parser.c:33-94 | the parent's reply to a line: the name for UID and GID with one number, 500 for a wrong argument count or no number, nothing for other words |
| `RootCommands.ParseRequest` | src/ipc/interprocess_handler.c:152-168 | for every 32-bit id, the request the child prints parses as that command with exactly one argument, the decimal id |
| `RootCommands.ScanDecimal` | src/engine/command_parser.c:52-58 | reading the decimal text of a 32-bit id as an unsigned number gives the id |
| `RootCommands.ScanExactly` | src/engine/command_parser.c:52-58 | a text is read as a number exactly when a digit follows white space and a sign or none |
| `RootCommands.ScanValue` | src/engine/command_parser.c:52-58 | its value: the numeral modulo 2^32, negative or not, or 2^32 - 1 when its digits do not fit 64 bits |
| `RootCommands.RefusedExactly` | src/engine/command_parser.c:40-91 | the parent answers 500 exactly to a wrong argument count and to UID or GID without a number, and nothing exactly to other words |
| `RootCommands.AskedNameArrives` | src/ipc/interprocess_handler.c:107-168 | on an empty channel, a child that asks for the name of any 32-bit id receives the name the parent looked up, cut to its buffer |
| `Interprocess.Channel.AskRoot` | src/ipc/interprocess_handler.c:121-168 | one question: the request printed, the parent's reply behind what was left in the channel, one read of at most 255 bytes into the caller's buffer, the rest left |
| `Interprocess.Channel.AskAll` | src/ipc/interprocess_handler.c:121-168 | any sequence of questions is answered as specified from what each read leaves |
| `Interprocess.InStepExactly` | src/ipc/interprocess_handler.c:107-119 | every question of a sequence starts on an empty channel exactly when all names but the last have fewer than 255 bytes |
| `Interprocess.AskedNamesArrive` | src/ipc/interprocess_handler.c:107-168 | then every question is answered by its own name, the last one cut to the buffer |
| `Interprocess.NextAnswerExactly` | src/ipc/interprocess_handler.c:107-119 | the question after a name is answered by its own name, whatever that is, exactly when the name before has fewer than 255 bytes |
| `PassiveMode.ScanPorts` | src/engine/data_handler.c:122-145 | the loop with its 16-bit counter, where it ends, stops at the specified port; data_port is left at the last port tried |
| `PassiveMode.ScanForeverExactly` | src/engine/data_handler.c:124-126 | the loop runs forever exactly when the range ends at port 65535 and no port at all can be bound, because the counter wraps |
| `PassiveMode.ScanFindsLeast` | src/engine/data_handler.c:124-145 | when some port of the range can be bound the scan ends at the least such one |
| `PassiveMode.PassiveReplyDecodes` | src/engine/data_handler.c:176-196 | decoding the 227 line as RFC 959 section 4.1.2 says gives the address and the port, for every address and port |
| `PassiveMode.ExtendedReplyDecodes` | src/engine/data_handler.c:165-172 | decoding the 229 line as RFC 2428 section 3 says gives the port |
| `RecursiveDelete.DeletableByChildren` | src/actions/dele.c:119-153 | a directory can be deleted exactly when it can be opened and removed itself and none of its entries is refused to lstat or to its own deletion |
| `RecursiveDelete.RemoveEntry` | src/actions/dele.c:134-148 | one entry of the loop: it is left exactly when some call on its subtree is refused; only entries at or below it go; failure is reported only by a directory |
| `RecursiveDelete.DeleteDirectoryRecursively` | src/actions/dele.c:119-153 | terminates on every finite tree; returns 0 exactly when no call on the subtree is refused, and then exactly the subtree is gone; otherwise the target remains, only entries below it were removed, and what remains is a well-formed tree; what symbolic links point to is never touched |
| `RecursiveDelete.EmptyDirectory` | src/actions/dele.c:121-149 | opening a directory and visiting its entries, up to the first subdirectory that cannot be removed: all entries visited and each left exactly on a refusal, or one that is refused is still there |
| `RecursiveDelete.DeleteLinked` | src/actions/dele.c:119-153 | when the path is a link to a directory in which no link on the way lies, the deletion fails, removes only entries below it, and leaves it empty exactly when it was, or it can be opened and nothing on its entries is refused |
| `RecursiveDelete.DeleteThroughLinks` | src/actions/dele.c:119-153 | when some link on the way lies in the directory the deletion fails too, removes only entries strictly below it, and leaves a well-formed tree |
| `CommandOptions.PathSafeExactly` | src/security/security.c:96-109 | the path check passes exactly the paths that do not contain two dots in a row |
| `DeleCommand.ParseDeleParams` | src/actions/dele.c:103-117 | accepted exactly when one argument only is neither -r nor -f, which is the target; recursive exactly with -r, forced exactly with -f |
| `DeleCommand.HandleDeleCommand` | src/actions/dele.c:23-101 | in terms of the arguments: 501 exactly without a single target; the success reply exactly when the target was removed; without -r a directory is left alone and refused; without -f a positive reply means the target was there and is gone; a link to a directory never is removed, but empties it exactly when nothing stands in the way there; otherwise the target remains, unless it is a link inside the directory it leads to; nothing outside the target or the directory it leads to is removed; when -f turns a failure into a positive reply, exactly |
| `ConfigSpec.FieldOfKey` | src/config_manager/config_manager.c:182-248 | any letter case of a key selects its field |
| `ConfigSpec.KnownKeys` | src/config_manager/config_manager.c:187-237 | the nine keys and their fields |
| `ConfigSpec.KnownExactly` | src/config_manager/config_manager.c:182-247 | every other key is unknown |
| `ConfigSpec.ParseIntExactly` | src/config_manager/config_manager.c:170-180 | a text is read as a number exactly when it is a decimal numeral, signed or not, with only white space around it, that fits an int |
| `ConfigSpec.NumberAccepted` | src/config_manager/config_manager.c:182-217 | what each numeric key accepts: exactly such numerals within its bounds; any other text leaves it alone |
| `ConfigSpec.LineSetsExactly` | src/config_manager/config_manager.c:289-312 | a line sets a field exactly when, trimmed, it is no comment, what comes before its first = is the key in any case with white space around it, and the field accepts what comes after |
| `ConfigSpec.LinesAreTheText` | src/config_manager/config_manager.c:282-284 | the pieces fgets reads are the whole text, each ending behind its newline, with the buffer full, or with the text |
| `ConfigSpec.DefaultsStay` | src/config_manager/config_manager.c:319-341 | a file that sets nothing leaves every default |
| `ConfigSpec.LastAcceptableWins` | src/config_manager/config_manager.c:284-313 | before the final fix-up every field holds the last acceptable value given for its key, else its default |
| `ConfigSpec.PostValidateSwaps` | src/config_manager/config_manager.c:250-262 | the final fix-up only ever exchanges the two passive bounds |
| `ConfigSpec.ReadInBounds` | src/config_manager/config_manager.c:265-317 | whatever the file says: 1024 <= passive start <= end <= 65535, port in 20..65535, at least one connection, timeouts not negative |
| `ConfigSpec.NarrowingIsLossless` | src/core/server_state.c:64-78 | narrowing the range read to 16 bits loses nothing and leaves at least one port |
| `ConfigRender.ReadInvertsRender` | src/config_manager/config_manager.c:265-317 | reading any rendering of an in-range configuration, with lines in any order, any letter case, white space, comments and blank lines, gives the configuration back |
| `ConfigReader.TrimInplace` | src/config_manager/config_manager.c:139-159 | trimming in the buffer leaves the trimmed string and touches nothing outside it |
| `ConfigReader.EqualsIcaseAt` | src/config_manager/config_manager.c:161-168 | the comparison loop is equality up to letter case |
| `ConfigReader.Configurations.constructor` | src/config_manager/config_manager.c:319-345 | a fresh configuration holds the defaults |
| `ConfigReader.Configurations.AssignKv` | src/config_manager/config_manager.c:182-248 | one assignment sets the field of the key to an acceptable value and otherwise changes nothing |
| `ConfigReader.Configurations.DoPostValidate` | src/config_manager/config_manager.c:250-262 | the fix-up of the passive range in place |
| `ConfigReader.Fgets` | src/config_manager/config_manager.c:284-284 | a read of at most 255 bytes up to a newline leaves that piece of the file, up to a NUL, in the buffer |
| `ConfigReader.SplitInplace` | src/config_manager/config_manager.c:293-307 | cutting the line at its first '=' and trimming both halves where they lie gives the trimmed key and value |
| `ConfigReader.ProcessLine` | src/config_manager/config_manager.c:288-312 | one turn of the loop applies exactly the setting the line specifies |
| `ConfigReader.ReadConfigurations` | src/config_manager/config_manager.c:265-317 | the configuration read is the one specified by the text of the file, or the defaults when there is no file |
| `ServerStates.ServerState.constructor` | src/core/server_state.c:19-56 | whatever the configuration file, the stored passive range is the configured one, in 16 bits and not empty |
| `ServerStates.ServerState.ConnectionsInitPasvRange` | src/core/server_state.c:64-78 | the swap, the clamps and the narrowing give the specified range and count |
| `ServerStates.ConfiguredScanForever` | src/engine/data_handler.c:124-126 | a configuration file of one line leaves the range 40000 to 65535, on which the scan never ends when no port can be bound |
| `Session.ReadCount` | src/actions/retr.c:101-101 | a read returns -1, 0 or a positive count that stays within the chunk size and the file as it is at that moment |
| `SessionInvariant.SelectRespectsLogin` | src/actions/command_actions.h:73-139 | the table never hands a client that is not logged in to an action that needs a login, nor a logged-in one to USER or PASS |
| `SessionInvariant.DrainInv` | src/actions/stor.c:81-83 | draining during an upload takes all buffered bytes and keeps file plus buffer equal to what was received |
| `SessionInvariant.SendNextChunkInv` | src/actions/retr.c:96-117 | a chunk keeps the invariant: as long as nobody wrote to the file since it was opened, the bytes queued are its beginning, and the completion callback is installed only at its end |
| `SessionInvariant.CloseInv` | src/engine/data_handler.c:323-361 | closing the data connection keeps the invariant, clears every data callback, the file under way, the active flag and the upload descriptor, and changes nothing else around the record |
| `SessionInvariant.AcceptInv` | src/engine/data_handler.c:25-97 | an accept keeps the invariant; a connection is opened exactly when the addresses agree and a buffer is made, and then no listener is left, the timer that was watching it is released, which it had not been, and nothing has been received |
| `SessionInvariant.EofInv` | src/engine/data_handler.c:301-319 | the end of the stream keeps the invariant, upload or not |
| `SessionInvariant.StepInv` | src/engine/data_handler.c:25-378 | every command line, accept, data event, read, write and timer keeps the invariant: one listener at most and the one pointed to; its timer live; no timer released twice; no data callback, file or active flag without a data connection; data_active 0 or 1; the end-of-stream callback only with an open file; file bytes followed by buffered bytes equal to bytes received since the STOR; as long as nobody wrote to the file of a chunked RETR since it was opened, bytes queued equal to its first offset bytes |
| `SessionInvariant.RunInv` | src/engine/data_handler.c:25-378 | the same for every run, in any order of events |
| `SessionLogin.LoginStep` | src/actions/command_actions.c:493-539 | in one step login is never lost and is gained exactly by an accepted PASS; the name changes exactly by an accepted USER before login |
| `SessionLogin.LoginIsForever` | src/actions/command_actions.c:486-491 | once logged in, a session stays logged in under the same name |
| `SessionLogin.LoginComesFromPass` | src/actions/command_actions.c:511-539 | a session that is logged in was let in by some accepted PASS for the name then in force, and still has that name |
| `SessionLogin.NameIsLastUser` | src/security/auth.c:20-29 | the name is always the one given by the last accepted USER |
| `SessionLogin.SessionSafety` | src/actions/command_actions.c:493-539 | over every run from a new connection: before login no listener, data connection or transfer exists; a login came from an accepted PASS for the last accepted USER name, which does not begin with root and has not changed since; no timer was released twice; the only listener is the one pointed to and its timer is live; without a data connection no data callback is installed |
| `SessionUpload.EofCompletes` | src/actions/stor.c:86-114 | at the end of the stream the connection is closed; with an upload under way the file is everything received since its STOR and exactly one 226 is sent, without one nothing is said and no file changes; 452 is never sent |
| `SessionUpload.StepReceives` | src/actions/stor.c:72-114 | every step: what a connection received grows by exactly what arrived; only a STOR that opens a file or the end of the connection changes what is being stored; a file that no upload is writing and no STOR opens does not change |
| `SessionUpload.GoneForever` | src/engine/data_handler.c:323-361 | a data connection that is gone never comes back under the same number |
| `SessionUpload.NeverAStorageError` | src/actions/stor.c:112-113 | over every run the 452 branch is never taken |
| `SessionUpload.FileKept` | src/actions/stor.c:72-114 | over every run a file that no upload is writing and no STOR opens keeps its content |
| `SessionUpload.UploadStoresWhatWasSent` | src/actions/stor.c:23-114 | STOR on a data connection, then anything but another STOR while the connection lives, then the end of the stream: the file is everything the client sent on that connection, every other file is as before the STOR, one 226 is sent, whether a TLS handshake came before or after the STOR |
| `SessionUpload.EachStorCompletesOnce` | src/actions/stor.c:96-109 | over every run the completions reported at the end of a stream are at most the STOR lines that opened a file |
| `SessionDownload.WriteProgress` | src/actions/retr.c:96-117 | every successful read moves the offset on, until the file is all there |
| `SessionDownload.HandedOver` | src/actions/retr.c:96-117 | while nobody writes to the file, the bytes queued are its first offset bytes, and the completion callback is installed exactly when they are the whole file |
| `SessionDownload.DownloadHandsOverTheFile` | src/actions/retr.c:33-117 | RETR over TLS of a file that no upload is writing, then any events short of another sender and a STOR of that file while the connection lives and reads succeed: what is queued is always a beginning of the file as it still is, the completion callback is installed exactly when it is the whole file, and that is so after as many write callbacks as the file has bytes at most |
| `SessionDownload.PlainRetrHandsOverTheFile` | src/actions/retr.c:62-133 | RETR without TLS of a file that no upload is writing, then any events short of another sender and a STOR of that file while the connection lives: exactly the file, as it still is, has been handed over, and the write callback reports completion exactly when nothing is left to send |
| `SessionDownload.FailedReadBreaks` | src/actions/retr.c:107-113 | a read that fails before the end closes the descriptor, queues nothing and says nothing |
| `SessionDownload.BrokenForever` | src/actions/retr.c:96-113 | after such a failure no write callback ever reports completion or does anything, while the connection lives and until a new RETR, LIST or NLST |
| `SessionDownload.GrownFileOverruns` | src/actions/retr.c:100-116 | when the file has grown by two bytes or more, a read past the end it had when it was opened is not taken for the last one |
| `SessionDownload.OverrunForever` | src/actions/retr.c:100-116 | such a download is never reported complete, over every run, while its connection lives and until another sender |
| `SessionDownload.FailedReadCompletes` | src/actions/retr.c:100-112 | a failed read has the download reported complete exactly when one byte more has been sent than the file had |
| `SessionDownload.StoredThenSent` | src/actions/retr.c:33-117 | what is in a file that no upload is writing is exactly what a later RETR over TLS that opens it queues, whatever happened in between short of a STOR of that file |
| `SessionPlaces.NameKept` | src/actions/stor.c:35-35 | over every run a name leads to the same file until a DELE takes it away; a STOR opens the file a name leads to |
| `SessionPlaces.RemovedIsGone` | src/actions/stor.c:35-35 | a name that a DELE takes away leads nowhere, over every run, until a STOR of it opens a file |
| `SessionPlaces.DirectoryKept` | src/actions/command_actions.c:38-73 | over every run the working directory of a logged-in session stays until a CWD succeeds |
| `SessionPlaces.PathThenSent` | src/actions/retr.c:33-117 | a path that leads to a file no upload is writing: after any events short of a STOR of that file, a DELE of that name and a successful CWD, RETR of the same path over TLS queues exactly that file |
| `SessionPlaces.UploadThenDownload` | src/actions/retr.c:33-117 | STOR of a path, the upload with anything but another STOR, the end of the stream, anything short of a STOR of that file, then RETR of the same path over TLS: as long as no CWD succeeds and no DELE takes the name, what is queued is exactly everything the client sent on the first connection |
| `SessionListing.HandshakeAlone` | src/actions/list.c:140-210 | a handshake while a LIST waits queues exactly what its path lists in the working directory of that moment; an empty listing is reported complete instead |
| `SessionListing.ListArguments` | src/actions/list.c:46-61 | the arguments of a listing are refused exactly when two of them are paths; otherwise the path is the one given, or the working directory, and each flag is set exactly when its option is given |
| `SessionListing.HandshakeKeepsConnection` | src/actions/list.c:194-200 | a handshake by itself never closes the data connection, although one of its callbacks would |
| `SessionListing.ListingGoesOutWithTheHandshake` | src/actions/list.c:122-210 | a LIST or NLST answered 150 over TLS, then anything but another sender or a STOR while the connection lives: what was queued is the listing of the handshake, if one came; one has come or can still come exactly when the connection was a TLS one not yet handshaken at the LIST; otherwise nothing is ever queued |
| `SessionListing.ListsTheDirectoryNamed` | src/actions/list.c:122-165 | a handshake still to come lists the directory the LIST named, whatever directories hold, exactly when the working directory is then the one of the LIST |
| `SessionListing.StorCancelsListing` | src/actions/stor.c:49-50 | a STOR that opens its file while a listing waits takes the handshake callback, and the listing is never queued, while the connection lives and until another sender |
| `SessionPassive.PassiveListensWhereItSays` | src/engine/data_handler.c:99-206 | with a free port in the range the session listens on the least one and nowhere else, a new timer watches the listener, and decoding the reply gives that port, and for PASV the address |
| `SessionPassive.AnnouncedExactly` | src/engine/data_handler.c:122-197 | whenever PASV or EPSV succeeds the reply carries the port the scan stopped at, which is the port listened on exactly when it is not 0; a scan of a range above 0 stops at 0 exactly when no port of the range can be bound, the range ends at 65535 and port 0 can be bound |
| `SessionPassive.PassiveFailsOtherwise` | src/engine/data_handler.c:107-205 | a listener is left exactly when getsockname works and the scan finds a port; otherwise the old listener is closed and the reply is 425 |
| `SessionTimers.PassiveTimersExact` | src/engine/data_handler.c:107-161 | after a successful PASV or EPSV only the new listener's own timer can close it, exactly when no earlier listener's timer was still armed |
| `SessionTimers.StaleTimerClosesNewListener` | src/engine/data_handler.c:363-378 | an earlier timer that was still armed closes the new listener when it goes off, and leaves that one's own timer armed |
| `SessionTimers.OwnTimersStep` | src/engine/data_handler.c:25-206 | one step keeps it so that only the present listener's timer can go off, exactly when it is no PASV or EPSV while such a timer is armed and no accepted connection without a buffer |
| `SessionTimers.OwnTimersExactly` | src/engine/data_handler.c:25-378 | over every run: at every point only the present listener's timer can go off, exactly when every step is of that kind; then no timer but its own ever closes a listener |
| `SessionReplies.EveryLineIsAnswered` | src/actions/command_actions.c:92-539 | every line is answered once, an empty plain listing twice, and a RETR not at all exactly when it has its argument and there is no data connection or over TLS the file cannot be opened; the codes are those of the command; a command that is refused has changed nothing, but for PASV, EPSV and DELE |
| `SessionReplies.TransferAnswers` | src/actions/list.c:78-134 | STOR, RETR, LIST and NLST: 501 exactly for wrong arguments, 425 exactly when only the data connection is missing, but never for RETR, 150 exactly when the transfer is begun |
| `SessionReplies.RefusalCloses` | src/actions/stor.c:35-44 | a refused STOR, RETR, LIST or NLST has the data connection closed after the reply in exactly those cases |
| `SessionReplies.LoginAnswers` | src/actions/command_actions.c:493-539 | before login 331 is said exactly to an accepted USER and 230 exactly to an accepted PASS |
| `SessionControl.RepliesStay` | src/engine/control_handler.c:152-171 | over every run replies are only ever added |
| `SessionControl.GreetingComesFirst` | src/engine/control_handler.c:92-93 | in every session the 220 greeting is the first thing said |
| `SessionControl.LoginEndsItsTimer` | src/actions/command_actions.c:526-528 | over every run from a new connection the login timer exists exactly until the client is logged in, is released exactly by that, and cannot go off afterwards |
| `SessionControl.NeverTimedOut` | src/engine/control_handler.c:168-179 | once logged in, a client is never told 421, over every run |
| `SessionControl.ClosesAfterTheReply` | src/core/connection.c:139-146 | once the data connection is to be closed after the reply, any events and then the written reply leave no data connection, no callback and no upload |
| `SessionControl.LastStrawEndsSession` | src/engine/control_handler.c:168-179 | the login timer, or a USER or PASS without exactly one argument, is answered 421 or 501, and unless the client has logged in meanwhile the session is over when a reply has been written |
| `SessionModes.PrivateExactlyIfAsked` | src/actions/command_actions.c:135-158 | over every run data connections are to be private exactly if some line was PROT P |
| `SessionModes.UpgradedExactlyIfAsked` | src/engine/control_handler.c:107-138 | over every run the control connection has gone over to TLS exactly if some line was AUTH TLS |
| `SessionModes.TypeIsInForce` | src/actions/command_actions.c:208-233 | over every run the transfer mode is what the last TYPE of a logged-in client set |
| `SessionModes.DirectoryIsInForce` | src/actions/command_actions.c:38-73 | over every run the working directory is where the last successful CWD led, from the root at login |
| `SessionEndings.TlsRetrCompletes` | src/actions/retr.c:96-144 | RETR over TLS: the next write callback says 226 Transfer complete, and the data connection is closed after it, exactly when the whole file has been handed over; before that it says nothing |
| `SessionEndings.PlainRetrCompletes` | src/actions/retr.c:118-133 | RETR without TLS: the write callback with nothing left to send says 226, and the data connection is closed after it |
| `SessionEndings.PlainListGoesOut` | src/actions/list.c:131-210 | LIST and NLST without TLS, over every run short of another sender: 150, exactly the listing handed over, then 226 at the next write callback and the data connection closed after it |
| `SessionEndings.EmptyListCloses` | src/actions/list.c:189-201 | with nothing to list they answer 150 and 226 at once, hand nothing over, and the data connection is closed after it |
| `SessionEndings.TlsListCompletes` | src/actions/list.c:140-210 | LIST and NLST over TLS: after the handshake exactly the listing has been handed over, then 226 at the next write callback, or at once when there is nothing to list, and the data connection is closed after it |
| `SessionEndings.CompletionRepeats` | src/actions/retr.c:135-144 | every write callback that comes before the connection is closed says once more that the transfer is complete |
| `SessionEndings.RefusalLosesConnection` | src/actions/list.c:78-120 | a LIST or NLST refused by 501 or 550, and a STOR refused by 550, has done nothing, and the data connection is closed after the reply |
| `SessionEndings.AborExactly` | src/actions/command_actions.c:466-491 | ABOR says 451 exactly when a data connection is ready, which is then gone, its upload keeping what was stored; otherwise 226, and whatever data connection there is is closed after the reply |
| `SessionEndings.BrokenConnection` | src/engine/data_handler.c:266-320 | an error or a timeout without the end of the stream: the connection is gone, nothing is said, no file changes, and an upload leaves a beginning of what was sent |
| `SessionReading.WrittenAsItArrives` | src/actions/stor.c:46-84 | an upload is written at each read callback exactly when the connection need not be private or the handshake has come since the STOR; otherwise the file stays empty and everything waits for the end of the stream |
| `SessionScenario.ClientGetsBackWhatItSent` | src/engine/data_handler.c:25-378 | for every user who may log in, every path and every content there is a session from a new connection, each line within one read, in which the content uploaded over one data connection is handed back exactly over a second, TLS one |
| `SessionScenario.ListIsReached` | src/actions/list.c:74-138 | runs from a new connection reach an accepted LIST whose handshake is still to come, and one whose handshake came first |
| `SessionScenario.TwoPasvs` | src/engine/data_handler.c:363-378 | a run from a new connection, USER, PASS, PASV, PASV and the first timer, closes the second listener |
| `Connections.Connection.constructor` | src/engine/control_handler.c:54-93 | a zeroed record with the authentication timer armed and the 220 greeting sent |
| `Connections.Connection.CloseDataConnection` | src/engine/data_handler.c:323-361 | the in-place close is the specified one, with or without a connection |
| `Connections.Connection.DataConnectionListenerConfig` | src/engine/data_handler.c:99-206 | the in-place PASV/EPSV step, its port scan included, is the specified one |
| `Connections.Connection.DataConnectionAcceptCb` | src/engine/data_handler.c:25-97 | the in-place accept is the specified one |
| `Connections.Connection.DataConnectionEventCb` | src/engine/data_handler.c:232-321 | the in-place event callback, where several flags can come together, is the specified one |
| `Connections.Connection.DataConnectionWriteCb` | src/engine/data_handler.c:220-230 | the in-place write callback is the specified one |
| `Connections.Connection.TimerFired` | src/engine/data_handler.c:363-378 | a timer closes whatever listener the record points to; the authentication timer has the control connection disabled after its reply |
| `Connections.Connection.WriteInput` | src/actions/stor.c:81-83 | the loop of partial writes ends with an empty buffer and all its bytes, in order, at the end of the file, however much each write takes |
| `Connections.Connection.RecvFile` | src/actions/stor.c:23-56 | the in-place STOR is the specified one, error branches included |
| `Connections.Connection.OnEofEventCb` | src/actions/stor.c:86-114 | the in-place end-of-stream callback is the specified one |
| `Connections.Connection.SendNextChunkCb` | src/actions/retr.c:96-117 | the in-place chunk callback is the specified one |
| `Connections.Connection.SendFileWithEvbuffer` | src/actions/retr.c:33-60 | the in-place TLS RETR with its first chunk is the specified one |
| `Connections.Connection.SendFilePlain` | src/actions/retr.c:62-94 | the in-place plain RETR is the specified one |
| `Connections.Connection.ParseListFlags` | src/actions/list.c:46-61 | the flag loop computes what `ListArguments` describes |
| `Connections.Connection.HandleListCommand` | src/actions/list.c:74-138 | the in-place LIST and NLST are the specified ones, error branches included |
| `Connections.Connection.SendListCommandOutput` | src/actions/list.c:156-210 | the callback assignments of an empty and of a non-empty listing are the specified ones |
| `Connections.Connection.UserExists` | src/security/auth.c:20-29 | the name is stored exactly when it names a user and does not begin with root |
| `Connections.Connection.PassAuthenticated` | src/actions/command_actions.c:511-539 | the in-place PASS is the specified one |
| `Connections.Connection.OnRead` | src/core/connection.c:81-92 | one line, parsed and looked up in the hash table on the heap, runs the command the session step specifies |
| `Connections.Connection.Dispatch` | src/engine/control_handler.c:54-105 | one turn of the event loop is the specified step and keeps the invariant |
| `Connections.Connection.DispatchAll` | src/engine/control_handler.c:98-98 | the event loop ends in the state the run specifies, whatever the events |
| `Connections.Serve` | src/engine/control_handler.c:54-105 | a server process, from its registry and its zeroed record on, reaches exactly the state of the specified run, so that everything stated about runs holds of the object |

## Left out

- Connections.Connection.WriteInput: every write is assumed to make progress; the C loop spins when the disk refuses for good.
- ChainedTable.AmortisedResizeCost: the load factor is the exact fraction 3/4 and `elem_count` does not overflow; memory never runs out.
- HashTables.HashTable.DeleteEntry: says nothing about `prev`, which is written but never read; freeing memory is not modelled.
- PassiveMode.ScanPorts: requires a scan that ends; `ScanForeverExactly` says when it does not. `SessionPassive.AnnouncedExactly` says when the port it stops at is the one listened on.
- DeleCommand.HandleDeleCommand: paths are shorter than PATH_MAX, the target of a link is a full path without links on the way, and nothing else changes the tree meanwhile.
- RecursiveDelete.DeleteThroughLinks: does not say which entries below the directory go; the deletion may take a link of its own path away on the way.
- RootCommands.ExecuteRootCommand: the password and group databases are functions from ids to names.
- Interprocess.Channel.AskRoot: a reply arrives whole, and the child reads only when one arrives.
- SessionUpload.UploadStoresWhatWasSent: one STOR for each data connection, as in the stream mode of RFC 959 section 3.4.1.
- SessionReading.WrittenAsItArrives: no other transfer runs over the data connection meanwhile.
- SessionDownload.DownloadHandsOverTheFile: speaks of bytes handed to the output buffer, not of their delivery, since the write callback may run with 128 KiB still queued; an empty file completes only if a write callback comes.
- SessionPlaces.UploadThenDownload: the download is over TLS; `SessionDownload.PlainRetrHandsOverTheFile` covers a plain one. What a path stands for depends on the working directory and the path alone, and a new file has the one name it was created under.
- Session.ReadCount: the outcome of `read` is an argument of the event.
- Connections.Connection.SendFileWithEvbuffer: RETR of a directory is taken as not found; the code opens it, answers 150, and the read fails. The same holds of Connections.Connection.SendFilePlain.
- Connections.Connection.PassAuthenticated: `authenticate_and_switch_user` is any function of name and password; of chroot and the change of identity only the change to the root directory is kept.
- Connections.Connection.DataConnectionAcceptCb: compares the first four characters of the two addresses, as the code does, although its comment speaks of the whole address; a second accept while a data connection is live is not modelled.
- Connections.Connection.HandleListCommand: the text of a listing, with sizes, times and permissions, is any function of the working directory and the request; a directory that can no longer be opened at the handshake, where the code would read from a null stream, is not modelled.
- libevent, OpenSSL and sockets appear as events in any order and as queues of bytes; the framing of control input is one line for each read.
- Inside a session SIZE, MDTM, PWD, MKD and RMD only send a reply, whose code may be any of theirs, and the names that a DELE takes away are an argument of its line; other processes do not change files.
- The accept of control connections, fork, and the counting of connections, which never goes down.
- The logger, the seeding of the configuration file on disk, certificates, and the kill switch between processes.
- Buffer cuts of replies at the maximum response length.
