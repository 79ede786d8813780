# Verified models of a location query server

The repository is a multi-threaded query server: one epoll thread hands connections to worker threads,
state is kept in sharded Redis servers, and the MD5, Base64, URL and configuration codecs are written by
hand. This project models the parts of it in which a wrong step is hard to see, and proves what they are
for.

- **Dispatch**, **DispatchService** and **FairDispatch** (with `Bags` and `Temporal`) are the protocol between the
  epoll thread and the workers, as a transition system over the task map, the armed descriptors, the pending
  event batch, and each worker's mutex, condition variable, program counter, task queue and status queue. One invariant gives
  that each task is in exactly one place, that nothing is freed while it can be reached, that both "can not
  find" branches are dead, that queues are first-in first-out without loss, and that no wakeup is lost. Every
  request reaches the first worker that can be had, and is given up only after each has been asked; connections,
  deletions and events are accounted for over every run. A measure gives that the work in flight can be drained
  without further accepts or reads, and is drained by every weakly fair run.
- **Md5Stream**, **Md5Bits**, **Md5Tables**, **Md5Transform** (with `Bytes`) are the streaming digest: the class with
  its partial block, its two counter words and both padding branches computes the fold over the message padded as
  in sections 3.1 and 3.2 of RFC 1321, for every way of cutting the message into updates; the 64 macro lines
  of the transform, with their constants, shifts and functions, are the operations of section 3.4.
- **Base64Text**, **Base64**, **UrlEncode** are the codecs, each with its inverse; the sealing of texts with a
  key byte is inverted exactly for the keys listed by its theorem.
- **RedisStore**, **Sharding**, **DataAdapter**, **AdapterLaws** show that a run of operations on hash-sharded
  servers, over connections that may fail, is a run on one flat store, exactly when an operation breaks that, and
  what callers can rely on from one request to a later one.
  **RedisText** is what becomes of the commands that are printed into a buffer and cut into words again.
  **DataRedis** is the lazily opened connection. **ServerList** is the server list and its printers.
- **Conf**, **QueryApis**, **ConfigRows**, **ConfigFile**, **ConfigLines**, **ConfigReader**, **ConfigExamples** are the
  configuration file: trimming in place in one line buffer, nested tokenising in place, the fold over lines,
  and the program's loops, with the exact conditions under which they end and stay inside their buffers.
- **OrderMember**, **Settlement**, **SettledOrders** are the daily settlement of orders; **Counters** the traffic
  counters; **UrlDomain** the normal form of a host name; **Replace** the two text replacements. `CText` has the C
  library's strings and numbers.

Code that updates state in place is modelled by classes and array-updating methods with loop invariants; the
dispatcher, which is many threads at once, by its steps. To check everything: `dafny verify dfyconfig.toml`.

What the proofs show to be different from what the documentation or the names promise:

- A configuration section without a handler keeps the main loop in place for ever (`ConfigRows.MainLoopEndsIff`,
  `ConfigExamples.UnknownSectionSpins`).
- A comment line before the first section, or a comment behind blanks anywhere, is trimmed past the beginning
  of the line buffer (`Conf.TrimRight`, `ConfigFile.PlainIff`, `ConfigExamples.CommentFirstUnderruns`).
- The token index of `URLS` is not reset between lines of one section, so several lines can fill the pointer
  array, which one line cannot (`ConfigExamples.ThreeLinesIff`, `QueryApis.OneLineFits`), and an entry that one
  line breaks off is closed by the next one, through pointers into the line buffer that now holds the next line
  (`QueryApis.CutLine`); addresses and parameters are copied by fixed widths, past the line buffer when they
  start too late in it (`ConfigFile.PlainPairIff`).
- `NUMS` other than 1 (or 0) makes the server list that the callers print run off its text, or off the array of
  ten characters that the count is printed into (`ServerList.CallerListParses`).
- Ranked puts choose their shard by score, keys with a NUL byte by more than is sent, and a set key with a blank
  is cut at it; all leave keys in a wrong shard (`DataAdapter.RankedPutMisplacedIff`,
  `DataAdapter.NulPutMisplaced`, `DataAdapter.BlankKeyMisplaced`).
- A set member with blanks is added word by word and is not moved at all (`RedisText.SaddIs`,
  `RedisText.SmoveIs`).
- `Decrypt` undoes `Encrypt` for the fixed key 20 and all keys below 128, and among the others only for the
  multiples of 32 (`Base64.DecryptEncrypt`).
- An order member without exactly three '#', or with a blank, is marked as settled but stays in its set
  (`Settlement.DueStaysIff`, `Settlement.LoneOrderStaysIff`). Error counters are drained and cleared but not printed
  (`Counters.ErrorsLost`).
- `replace_all` with a new text of the old one's length ends unless the two are equal (`Replace.EndsIff`), never
  ends when the new text contains the old one (`Replace.NeverEnds`), and is `replace_all_distinct` when a new text
  that is no shorter cannot be part of an occurrence (`Replace.ApartIsDistinct`).

## Model

| member | source | states |
|---|---|---|
| `Dispatch.InitInv` | src/UserQueryServer/UserQueryServer.cpp:11-22 | with no tasks and all workers about to lock, the invariant holds |
| `Dispatch.ActInv` | src/UserQueryWorkThreads/UserQueryWorkThreads.cpp:50-85 | every step of a worker's loop (lock, sleep, wake, pop, finish, unlock, notify) keeps the invariant |
| `Dispatch.PushInv` | src/UserQueryServer/UserQueryServer.cpp:97-116 | pushing the task in hand to the worker whose mutex is held keeps the invariant: it leaves the hand and enters one queue once |
| `Dispatch.NotifyInv` | src/CommonTools/Lock/Lock.cpp:73-85 | notifying keeps the invariant, by which a worker asleep without a pending signal has an empty queue |
| `Dispatch.ReadInv` | src/UserQueryServer/UserQueryServer.cpp:118-141 | taking a read event keeps the invariant: the descriptor is disarmed and its own live task is in the server's hand; where it goes from there is `DispatchService.RequestReachesWorker` |
| `Dispatch.AcceptInv` | src/UserQueryServer/UserQueryServer.cpp:143-169 | accepting keeps the invariant: the connection becomes a fresh task that is armed, or is deleted when arming fails |
| `Dispatch.ReapInv` | src/UserQueryServer/UserQueryServer.cpp:171-205 | reaping keeps the invariant: the task of the status is re-armed or deleted |
| `Dispatch.DeleteInv` | src/UserQueryServer/UserQueryServer.cpp:171-205 | deleting the task in hand keeps the invariant, by which freed tasks are out of reach and freed once |
| `Dispatch.StepInv` | src/UserQueryServer/UserQueryServer.cpp:29-205 | every enabled step of the server or of any worker, in any interleaving, keeps the invariant |
| `Dispatch.ReachableInv` | src/UserQueryServer/UserQueryServer.cpp:29-205 | the invariant holds in every reachable state |
| `Dispatch.ExactlyOnePlace` | src/UserQueryServer/UserQueryServer.cpp:97-205 | in every reachable state a descriptor is in the map iff it is armed, in the server's hand, or in one worker's line, and it is in exactly one of these, once |
| `Dispatch.NoUseAfterFree` | src/UserQueryServer/UserQueryServer.cpp:118-205 | no deleted task can be reached from a queue, a running worker or the server, and no task is deleted twice |
| `Dispatch.LookupsSucceed` | src/UserQueryServer/UserQueryServer.cpp:118-205 | both "can not find" branches are unreachable |
| `Dispatch.WorkerHistory` | src/UserQueryWorkThreads/UserQueryWorkThreads.cpp:56-84 | reaped and waiting statuses, running task and queue are exactly what was ever pushed, in order; no push lands while the worker runs; a worker asleep without a signal has an empty queue |
| `Dispatch.LoadLaw` | src/UserQueryWorkThreads/UserQueryWorkThreads.cpp:57-83 | a push adds three units of load; pop, finish and reap each remove one; nothing else changes the load |
| `Dispatch.LoadConserved` | src/UserQueryWorkThreads/UserQueryWorkThreads.cpp:57-83 | over every run the load is three per push less one per advancing step |
| `Dispatch.SomethingAdvances` | src/UserQueryServer/UserQueryServer.cpp:97-205 | from every reachable state with work left and no accept or read event at hand, wherever the server stands, a run without such events reaches a smaller load |
| `Dispatch.ToIdle` | src/UserQueryServer/UserQueryServer.cpp:97-116 | whatever the server has in hand, it pushes it or gives it up, ignores the other events, and is free again |
| `Dispatch.LoadZeroAllArmed` | src/UserQueryServer/UserQueryServer.cpp:171-205 | with no load left every task in the map is armed, save one the server carries |
| `Dispatch.Drain` | src/UserQueryServer/UserQueryServer.cpp:97-205 | every reachable state whose batch holds no accept or read event drains by exactly as many advancing steps as its load, and three more if the task in hand is still pushed; then all tasks in the map are armed |
| `DispatchService.RequestReachesWorker` | src/UserQueryServer/UserQueryServer.cpp:97-141 | from every state of a run with a read event at hand and some mutex free: the server can ask the workers from the first one on, and the first free one then has the descriptor's task last in its queue, its mutex free again and a sleeper woken; nothing is deleted and no other worker changes |
| `DispatchService.GivenUpWhenAllBusy` | src/UserQueryServer/UserQueryServer.cpp:97-141 | between a read event and the moment its task is deleted for want of a worker, whatever the workers do meanwhile, the server has asked each of them exactly once, in turn, and each mutex was taken when it was asked |
| `DispatchService.AskedInVain` | src/UserQueryServer/UserQueryServer.cpp:97-116 | the same from any point of the search on: as many failed attempts as there are workers left to ask |
| `DispatchService.VisitRuns` | src/UserQueryServer/UserQueryServer.cpp:29-205 | a connection that becomes readable is given to the first free worker, run, reported and reaped: afterwards it is armed again if the worker ended with success, and deleted otherwise |
| `DispatchService.ConnectionsCounted` | src/UserQueryServer/UserQueryServer.cpp:143-205 | in every run the connections in the map and the deleted ones together grow by those accepted and armed |
| `DispatchService.DeletionsExplained` | src/UserQueryServer/UserQueryServer.cpp:97-205 | in every run a connection is deleted once for each request given up, each failure a worker reports and each connection that cannot be armed again, and for nothing else |
| `DispatchService.EventsAnswered` | src/UserQueryServer/UserQueryServer.cpp:29-68 | in every run each event that epoll reports is answered once, in order, by a step of its kind, or is still at hand |
| `FairDispatch.StatusStep` | src/UserQueryServer/UserQueryServer.cpp:171-205 | every quiet step of the server reaps a status or brings the scan closer to a given status queue, and every other step keeps the distance |
| `FairDispatch.WorkStep` | src/UserQueryWorkThreads/UserQueryWorkThreads.cpp:56-84 | every own step of a worker with a task advances the work or brings the worker closer to it, and no other thread sets it back |
| `FairDispatch.FairRunDrains` | src/UserQueryServer/UserQueryServer.cpp:29-205 | every infinite run from a reachable state that passes over no thread for ever, and has no accept and read events, comes to a point from which on no work is in flight and all tasks in the map are armed |
| `Md5Stream.Md5.Init` | src/CommonTools/Md5/Md5.cpp:16-27 | the object has seen the empty message |
| `Md5Stream.Md5.Update` | src/CommonTools/Md5/Md5.cpp:63-101 | the message seen grows by the data; the buffer holds the last (total mod 64) bytes, the state is the fold over the whole blocks, the two words count 8 * total modulo 2^64 |
| `Md5Stream.Md5.Count` | src/CommonTools/Md5/Md5.cpp:63-76 | both counter words after the addition with carry, and the fill of the buffer before it |
| `Md5Stream.CounterAdds` | src/CommonTools/Md5/Md5.cpp:67-72 | adding 8n with a carry between two 32-bit words is addition modulo 2^64 of the pair |
| `Md5Stream.LowWordGivesFill` | src/CommonTools/Md5/Md5.cpp:67-76 | bits 3 to 8 of the low word are the total modulo 64 |
| `Md5Stream.Md5.Final` | src/CommonTools/Md5/Md5.cpp:29-61 | the digest of the message seen: the fold over the padded message, encoded |
| `Md5Stream.Md5.FinishBlocks` | src/CommonTools/Md5/Md5.cpp:29-58 | both padding branches feed the last one or two blocks of the padded message |
| `Md5Stream.PaddedForm` | src/CommonTools/Md5/Md5.cpp:29-58 | the padded message is whole blocks: the message, a one bit, fewer than 64 zero bytes after it, and the length in bits modulo 2^64, low byte first |
| `Md5Stream.PaddedBlocks` | src/CommonTools/Md5/Md5.cpp:29-58 | the padding of sections 3.1 and 3.2 of RFC 1321 amounts to one block when at most 55 bytes are left over, and to two otherwise |
| `Md5Stream.Md5.ByteReverse` | src/CommonTools/Md5/Md5.cpp:188-198 | writing each word's bytes low byte first leaves them as they are |
| `Md5Stream.Hash` | src/CommonTools/Md5/Md5.cpp:16-101 | for every way of cutting a message into updates the digest is that of the whole message |
| `Md5Bits.FirstMacro` | src/CommonTools/Md5/Md5.h:17 | the first mixing macro, as written with exclusive or, is the function F of section 3.4 of RFC 1321 |
| `Md5Bits.SecondMacro` | src/CommonTools/Md5/Md5.h:18 | the second macro is the function G |
| `Md5Bits.ThirdMacro` | src/CommonTools/Md5/Md5.h:19 | the third macro is the function H |
| `Md5Bits.FourthMacro` | src/CommonTools/Md5/Md5.h:20 | the fourth macro is the function I |
| `Md5Bits.SumAssociates` | src/CommonTools/Md5/Md5.h:22 | the sum of a macro line is the sum modulo 2^32 of the standard, in whatever order it is taken |
| `Md5Bits.Rotates7` | src/CommonTools/Md5/Md5.h:22 | the two shifts of a macro line by 7 and 25 are the rotation w * 2^7 + w / 2^25, modulo 2^32; the other fifteen shifts have the same lemma |
| `Md5Tables.ConstantsAreStandard` | src/CommonTools/Md5/Md5.cpp:112-178 | the constants of the 64 lines are the table T of section 3.4, in order |
| `Md5Transform.RowIsStandard` | src/CommonTools/Md5/Md5.cpp:112-178 | each group of four macro lines uses the message words and rotations of section 3.4 |
| `Md5Transform.ScheduleIsStandard` | src/CommonTools/Md5/Md5.cpp:103-186 | the macro lines, with their rotating registers, are the 64 operations in order |
| `Md5Transform.StepIsStandard` | src/CommonTools/Md5/Md5.cpp:103-186 | one macro line computes what the operation of the standard computes, for any two algebras whose sums, rotations and functions agree |
| `Md5Transform.AlgebraIsStandard` | src/CommonTools/Md5/Md5.cpp:103-186 | on words of 32 bits the macros with their shifts and the functions of the standard with its arithmetical rotation make the same transform |
| `Md5Transform.CompressIsStandard` | src/CommonTools/Md5/Md5.cpp:103-186 | the whole transform with the final addition of the state is the standard's |
| `Md5Transform.InitialBytes` | src/CommonTools/Md5/Md5.cpp:16-21 | the initial state, written low byte first, is the bytes 01 23 45 67 89 ab cd ef fe dc ba 98 76 54 32 10 of section 3.3 |
| `Md5Transform.WordReadBack` | src/CommonTools/Md5/Md5.cpp:188-198 | a word written low byte first is read back |
| `Md5Transform.BlockWords` | src/CommonTools/Md5/Md5.cpp:188-198 | word k of a block is the number whose bytes, low byte first, are those from 4k on |
| `Md5Transform.DigestIsStandard` | src/CommonTools/Md5/Md5.cpp:16-186 | for every message the program's digest is the one of the standard, whose functions, table, rounds and rotation are written down apart from the program's |
| `Base64.MaskForms` | src/CommonTools/Base64Encode/Base64.cpp:19-48 | the masks and shifts of the encoder are the quotients and remainders the model uses |
| `Base64.Encode` | src/CommonTools/Base64Encode/Base64.cpp:11-52 | the three-byte loop and its tail write the encoding of the bytes |
| `Base64.Decode` | src/CommonTools/Base64Encode/Base64.cpp:54-93 | the four-letter loop and its tail, with npos stored in missing slots, give the decoding |
| `Base64.LawsHold` | src/CommonTools/Base64Encode/Base64.cpp:11-93 | for both alphabets, groups and tails of letters and bytes determine each other |
| `Base64.GroupNumber` | src/CommonTools/Base64Encode/Base64.cpp:11-52 | for both alphabets: three bytes are a number of 24 bits whose digits to the base 64 are the values of their four letters, the highest first, with the letters valued as in the tables of sections 4 and 5 of RFC 4648 |
| `Base64.TailNumber` | src/CommonTools/Base64Encode/Base64.cpp:35-50 | one or two bytes at the end are the highest bits of two or three letters, the missing bits zero, followed by '=' |
| `Base64Text.DecodeEncode` | src/CommonTools/Base64Encode/Base64.cpp:11-93 | decoding an encoding gives every byte string back |
| `Base64Text.EncodedShape` | src/CommonTools/Base64Encode/Base64.cpp:11-52 | an encoding has four letters for every three bytes begun, and is canonical |
| `Base64Text.EncodeDecode` | src/CommonTools/Base64Encode/Base64.cpp:54-93 | encoding the decoding of a canonical text gives the text back |
| `Base64Text.CanonicalIffFixed` | src/CommonTools/Base64Encode/Base64.cpp:54-93 | a text is canonical exactly when re-encoding its decoding gives it back |
| `Base64.Base64RoundTrip` | src/CommonTools/Base64Encode/Base64_2.cpp:11-93 | all of this for the alphabets ending in '+' '/' and in '-' '/' |
| `Base64.Encrypt` | src/CommonTools/Base64Encode/Base64.cpp:95-122 | the encoding of the sealed text: masked bytes, reversed, with the key byte |
| `Base64.SealedBits` | src/CommonTools/Base64Encode/Base64.cpp:106-119 | a sealed text is the bytes from the last to the first, every bit changed where the key modulo 32 has one, and then the key |
| `Base64.Decrypt` | src/CommonTools/Base64Encode/Base64.cpp:124-144 | the opened decoding; not ok, where the program throws, exactly for a text that decodes to nothing |
| `Base64.OpenedBits` | src/CommonTools/Base64Encode/Base64.cpp:127-140 | an opened text is the bytes from the last in front of the key to the first, every bit changed where the low byte of the signed key's remainder by 32, with the sign of the key, has one |
| `Base64.OpenSealed` | src/CommonTools/Base64Encode/Base64.cpp:95-144 | opening a sealed text gives it back exactly when the key is below 128, a multiple of 32, or the text is empty |
| `Base64.DecryptEncrypt` | src/CommonTools/Base64Encode/Base64_2.cpp:95-133 | for both alphabets, every key and every text, `Decrypt` undoes `Encrypt` exactly under that condition |
| `UrlEncode.UrlEncode` | src/CommonTools/UrlEncode/UrlEncode.cpp:20-37 | the buffer of 3n+1 bytes receives the encoding of the text and its terminator |
| `UrlEncode.UrlDecode` | src/CommonTools/UrlEncode/UrlEncode.cpp:39-60 | the buffer of n+1 bytes receives the decoding; nothing behind the terminator is read |
| `UrlEncode.TakeChar` | src/CommonTools/UrlEncode/UrlEncode.cpp:43-55 | one step of the decoder, which looks two characters ahead only when they are there |
| `UrlEncode.DecodeEncode` | src/CommonTools/UrlEncode/UrlEncode.cpp:8-60 | decoding an encoding gives the text back |
| `UrlEncode.EncodedForm` | src/CommonTools/UrlEncode/UrlEncode.cpp:20-37 | letters, digits and '-' '.' '_' '~' stand for themselves, a blank becomes '+', any other byte '%' and its value in two upper-case digits |
| `UrlEncode.DecodedForm` | src/CommonTools/UrlEncode/UrlEncode.cpp:39-60 | '%' and two digits of either case are read as their value, '+' as a blank, any other character as itself |
| `UrlEncode.EncodedFits` | src/CommonTools/UrlEncode/UrlEncode.cpp:20-37 | an encoding has at most three characters per byte |
| `UrlEncode.UrlRoundTrip` | src/CommonTools/UrlEncode/UrlEncode.cpp:8-60 | for every text without a NUL the result the caller sees is the text |
| `Sharding.RunRefines` | src/redisCommon/data_adapter.cpp:55-235 | a command at the key's home shard answers and changes as on the flat store |
| `Sharding.MisplacedIff` | src/redisCommon/data_adapter.cpp:209-221 | a command at another shard keeps every key at home exactly when it would leave no value there |
| `Sharding.SmoveRefines` | src/redisCommon/data_adapter.cpp:71-85 | a move between keys of one shard is the move on the flat store |
| `Sharding.SmoveMisplacedIff` | src/redisCommon/data_adapter.cpp:71-85 | a move between shards keeps every key at home exactly when the member was not there |
| `Sharding.OverRefines` | src/redisCommon/data_adapter.cpp:55-235 | a command over a connection that answers, or loses it before or after the server has executed it, acts on the shards as on the flat store |
| `Sharding.RunAllRefines` | src/redisCommon/data_adapter.cpp:55-235 | any run of commands sent to their keys' homes, over connections that may fail, gives the replies of one flat store and ends representing it |
| `DataAdapter.DataAdapter.Pick` | src/redisCommon/data_adapter.cpp:55-69 | the shard is the digest's first eight bytes modulo the number of servers, for texts of every length, of which the digest sees the length modulo 2^32 |
| `DataAdapter.HomeOfText` | src/redisCommon/data_adapter.cpp:55-66 | the shard of a text is the number in the first eight bytes of its standard MD5 digest, least significant byte first, modulo the number of servers |
| `DataAdapter.DataAdapter.Send` | src/redisCommon/data_adapter.cpp:55-235 | one command over the connection of its shard, which may answer or lose it |
| `DataAdapter.DataAdapter.UserGet` | src/redisCommon/data_adapter.cpp:55-69 | GET in the key's shard; true with a text that is not empty, and the store does not change |
| `DataAdapter.DataAdapter.UserSmove` | src/redisCommon/data_adapter.cpp:71-85 | SMOVE in the shard of the source key, with the words its text is cut into; false for an error, a text that is not three words behind the command, or a lost command |
| `DataAdapter.DataAdapter.UserSmembers` | src/redisCommon/data_adapter.cpp:87-101 | the members of the set as C strings, or false; the store does not change |
| `DataAdapter.DataAdapter.UserSadd` | src/redisCommon/data_adapter.cpp:103-117 | SADD in the shard of the hashed key, of every word behind the first one under that one; false for an error, too few words, or a lost command |
| `DataAdapter.DataAdapter.UserIncr` | src/redisCommon/data_adapter.cpp:150-164 | INCR in the key's shard; false for an error or a lost command |
| `DataAdapter.DataAdapter.UserIncrBy` | src/redisCommon/data_adapter.cpp:166-180 | INCRBY, or INCR for an increment that is not positive; false for an error or a lost command |
| `DataAdapter.DataAdapter.UserPut` | src/redisCommon/data_adapter.cpp:182-193 | SET without expiry of the value under the key; false for an error or a lost command. What a later get returns is `AdapterLaws.ServeLawfully` |
| `DataAdapter.DataAdapter.UserPutExpire` | src/redisCommon/data_adapter.cpp:223-235 | SET with expiry; false for an error or a lost command |
| `DataAdapter.DataAdapter.UserPutOrderSet` | src/redisCommon/data_adapter.cpp:209-221 | ZADD under the key, in the shard chosen by the score, with the score as Redis reads it |
| `DataAdapter.ServeAll` | src/redisCommon/data_adapter.cpp:55-235 | serving any sequence of requests through the operations of the object leaves the shards and results of the run of commands; for requests whose keys share the hashed shard, and are one word where a text is printed, those of the flat store the shards stand for |
| `AdapterLaws.ServeLawfully` | src/redisCommon/data_adapter.cpp:55-235 | for any sequence of good requests served one after the other, over any links and number of servers, the laws of the next rows hold of the requests and their results, and a text is left with the expiry of its last put, whatever was counted on it since |
| `AdapterLaws.PutIsGot` | src/redisCommon/data_adapter.cpp:55-69 | after a put that succeeded, with or without expiry, and no change of the key since, a get that is answered returns the text as a C string, and fails if that is empty |
| `AdapterLaws.NumberIsGrown` | src/redisCommon/data_adapter.cpp:150-180 | after a put of a number that succeeded, with only answered increments of the key since, a get returns the number plus all increments that succeeded, INCR or one that is not positive counting 1; an increment fails exactly if the sum leaves 64 bits |
| `AdapterLaws.AddedIsListed` | src/redisCommon/data_adapter.cpp:87-117 | a member that was added, one word that fits the command, is among the members until a put or a move under its key |
| `AdapterLaws.MovedIsListed` | src/redisCommon/data_adapter.cpp:71-101 | a member that was added and then moved is among the members of the target, and not among those of the source |
| `AdapterLaws.NothingIsYet` | src/redisCommon/data_adapter.cpp:55-101 | a key that was not in the store and that no request has changed yet gives no text and no members |
| `DataAdapter.AdapterRefinesFlat` | src/redisCommon/data_adapter.cpp:55-235 | the same from empty servers, for any number of them, with the program's hash: every key is in its home shard only |
| `DataAdapter.OneServerIsGood` | src/redisCommon/data_adapter.cpp:55-235 | with one server every request whose keys are sent as they are meets that condition |
| `DataAdapter.RankedPutMisplacedIff` | src/redisCommon/data_adapter.cpp:209-221 | a ranked put whose score lives elsewhere misplaces its key exactly when Redis takes the score for a number, whatever it takes for one |
| `DataAdapter.NulPutMisplaced` | src/redisCommon/data_adapter.cpp:182-193 | a put under a key with a NUL byte, hashed elsewhere than its visible part, misplaces it |
| `DataAdapter.BlankKeyMisplaced` | src/redisCommon/data_adapter.cpp:103-117 | an addition under a key with a blank, hashed elsewhere than its first word, misplaces that word exactly when another word follows it in the text sent |
| `RedisText.SaddIs` | src/redisCommon/data_redis.cpp:423-441 | the text of SADD, cut to its buffer, adds every word of the member under the key, and is refused when none is left |
| `RedisText.SmoveIs` | src/redisCommon/data_redis.cpp:541-559 | the text of SMOVE, cut to its buffer, moves a member that is left as one word, and is refused otherwise |
| `RedisText.SaddSendsIff` | src/redisCommon/data_redis.cpp:423-441 | a member is added as it is, and nothing else, exactly when it is one word and the whole command has at most 4095 characters |
| `RedisText.SmoveSendsIff` | src/redisCommon/data_redis.cpp:541-559 | the same for the member of a move |
| `DataRedis.DataRedis.KeepConnect` | src/redisCommon/data_redis.cpp:65-97 | true exactly with a live connection on the configured database, which is exactly if the network connects and answers SELECT, unless the database is 0, and PING, sent in this order; no handle or reply leaks; the mutual recursion ends |
| `DataRedis.DataRedis.SelectDB` | src/redisCommon/data_redis.cpp:356-372 | true exactly with a live connection on the selected database, after the commands of a new connection if there was none |
| `DataRedis.DataRedis.Exchange` | src/redisCommon/data_redis.cpp:179-199 | one command: its reply is freed exactly once, and a failure drops the connection |
| `DataRedis.DataRedis.Perform` | src/redisCommon/data_redis.cpp:179-199 | true exactly if a connection is there or opens, and the request is answered without an error, and not with an empty text where one is needed; then the request was sent once, behind the commands of a new connection only, and the text is the answer to it; false leaves no connection |
| `DataRedis.Session` | src/redisCommon/data_redis.cpp:54-125 | over any sequence of calls and any network the object stays valid |
| `DataRedis.SelectOutside` | src/redisCommon/data_redis.cpp:356-372 | an outside selection breaks the agreement with the configured database exactly when it succeeds with another one |
| `ServerList.ServList` | src/redisCommon/data_redis.cpp:16-42 | the three deques are the parse of the text up to its first NUL; a missing ';' or an entry of 256 characters is undefined |
| `ServerList.ParseShow` | src/redisCommon/data_redis.cpp:16-42 | parsing a printed list gives its servers in order, a missing database as 0 |
| `ServerList.CallerListParses` | src/UserQueryWorkThreads/UserQueryWorkThreads.cpp:104-113 | the callers' text means the one server, with the low 16 bits of its database, exactly for count 1 and a database of at most nine characters; count 0 gives none; any other count runs off the text or off the array it is printed into |
| `Conf.TrimLeft` | src/CommonTools/Conf/Conf.cpp:239-247 | the string at the position loses its leading blanks, nothing outside it changes |
| `Conf.TrimRight` | src/CommonTools/Conf/Conf.cpp:249-261 | the string loses its remark and trailing blanks; it stays inside exactly when something is left |
| `Conf.TrimsInsideIff` | src/CommonTools/Conf/Conf.cpp:231-261 | a text is trimmed past its beginning exactly when its first non-blank is '#' |
| `Conf.Trim` | src/CommonTools/Conf/Conf.cpp:231-237 | both trims in place |
| `Conf.IsValid` | src/CommonTools/Conf/Conf.cpp:207-220 | true exactly for a line that does not start with '#' and has something in it; trims on the left |
| `Conf.IsSection` | src/CommonTools/Conf/Conf.cpp:222-229 | true exactly when the line starts with '[' |
| `Conf.KeyValue` | src/CommonTools/Conf/Conf.cpp:185-205 | key and value stand at their places, trimmed, exactly when there is a '=' and the key is trimmed inside the buffer; what that gives for a written line is `ConfigLines.AssignmentRead` |
| `QueryApis.Strtok` | src/UserQueryMain/UserQueryMain.cpp:461-469 | the next run without the separator, terminated in place; nothing else changes |
| `QueryApis.NestedIsFlat` | src/UserQueryMain/UserQueryMain.cpp:461-491 | cutting at ';' and each piece at ',' gives the tokens of cutting at both |
| `QueryApis.TakeToken` | src/UserQueryMain/UserQueryMain.cpp:469-487 | a token takes its place in the pointer array; one that closes an entry registers it as read through the last five pointers, and stays inside the line buffer exactly when the two copies of fixed width do |
| `QueryApis.CutPiece` | src/UserQueryMain/UserQueryMain.cpp:469-489 | the inner loop takes the tokens of its piece, leaves the rest of the line alone, and stays inside its buffers exactly when all tokens since the header fit |
| `QueryApis.CutLine` | src/UserQueryMain/UserQueryMain.cpp:461-491 | whatever earlier lines took, both loops stay inside their buffers exactly when the tokens since the header leave room in the pointer array and every fifth of them is copied from inside the line; then the entries are registered left to right, the first one from what the buffer held at the pointers of an entry broken off before |
| `QueryApis.SpanCount` | src/UserQueryMain/UserQueryMain.cpp:461-491 | n characters hold at most (n+1)/2 tokens |
| `QueryApis.OneLineFits` | src/UserQueryMain/UserQueryMain.cpp:432-434 | one line that fits its buffer takes at most half of the pointer array |
| `QueryApis.ShownTokens` | src/UserQueryMain/UserQueryMain.cpp:461-491 | cutting a printed list gives its fields, wherever it stands in the buffer |
| `QueryApis.ListedApis` | src/UserQueryMain/UserQueryMain.cpp:461-491 | a list of five-field entries registers exactly these, later ones over earlier ones |
| `QueryApis.EntryRegistered` | src/UserQueryMain/UserQueryMain.cpp:461-491 | the text "url,param,province,carrier,limits;" registers under the url the parameter, cut to 128 characters, the province, the carrier, cut to 8, and the limit, both as 64-bit numbers |
| `ConfigRows.OutcomeIs` | src/UserQueryMain/UserQueryMain.cpp:113-166 | for every file the first line that stops the program, told from the lines in front of it, decides the outcome; without one the file loads if it has a section |
| `ConfigRows.LoadsIff` | src/UserQueryMain/UserQueryMain.cpp:113-166 | exactly the files with a section, none of whose lines stops the program, load; without a section they are refused |
| `ConfigRows.MainLoopEndsIff` | src/UserQueryMain/UserQueryMain.cpp:137-163 | the main loop ends exactly when every section it comes to has a handler |
| `ConfigRows.PhaseIs` | src/UserQueryMain/UserQueryMain.cpp:126-163 | after any number of lines of any file: the section of the last header with the places of the tokens since then, or the stop at the first line that stops the program |
| `ConfigRows.SettingsAre` | src/UserQueryMain/UserQueryMain.cpp:169-525 | for every file, up to the line that stops the program: a field is what the last line of its section and key gives it, and no other field is assigned |
| `ConfigRows.LastAtIs` | src/UserQueryMain/UserQueryMain.cpp:169-525 | what "the last line that assigns" means, by position |
| `ConfigFile.UnderrunIff` | src/CommonTools/Conf/Conf.cpp:207-261 | a handler trims a line past its beginning exactly when it is a comment behind blanks |
| `ConfigFile.FirstLineIs` | src/UserQueryMain/UserQueryMain.cpp:126-133 | the search for the first section agrees with the handlers on headers and trims every comment past its beginning |
| `ConfigFile.FieldNamed` | src/UserQueryMain/UserQueryMain.cpp:169-525 | no field is assigned from two sections or keys |
| `ConfigFile.NamedField` | src/UserQueryMain/UserQueryMain.cpp:169-525 | every field is assigned from its section and key |
| `ConfigFile.NumberRead` | src/UserQueryMain/UserQueryMain.cpp:187-360 | a number in decimal that the field can hold is what the field becomes |
| `ConfigFile.NegativeRead` | src/UserQueryMain/UserQueryMain.cpp:187-360 | a negative number wraps around: modulo 2^32 in a count, modulo 65536 in a port |
| `ConfigFile.RankNamed` | src/UserQueryMain/UserQueryMain.cpp:187-199 | each rank has its name, and a name of none of them means the lowest one |
| `ConfigFile.ProgramLawful` | src/UserQueryMain/UserQueryMain.cpp:169-525 | the handlers assign the field of their section and key, and nothing without a section |
| `ConfigFile.PlainPairIff` | src/UserQueryMain/UserQueryMain.cpp:306-308 | a key and value leave a buffer exactly when an address of one of the two servers starts behind column 896, or the tokens of URLS since the header fill the pointer array or close an entry whose copies reach behind the line |
| `ConfigFile.PlainIff` | src/UserQueryMain/UserQueryMain.cpp:113-525 | a line stops the program exactly when it is a comment in front of the first header or behind blanks, a header without a handler, or such a key and value |
| `ConfigFile.FileLoadsIff` | src/UserQueryMain/UserQueryMain.cpp:113-166 | exactly the files with a section and without such lines load, exactly those without a section and without such lines are refused |
| `ConfigFile.FileSettings` | src/UserQueryMain/UserQueryMain.cpp:113-525 | for every file: the last assignments, up to the line that stops the program, which is none in a file that loads |
| `ConfigLines.AssignmentRead` | src/CommonTools/Conf/Conf.cpp:185-261 | a line of a key and a value, with any blanks in front, around '=' and behind, and any remark, is read as that key and that value, without any blank |
| `ConfigLines.HeaderRead` | src/CommonTools/Conf/Conf.cpp:207-261 | a header with blanks and a remark around it is read as that section |
| `ConfigLines.FieldRead` | src/UserQueryMain/UserQueryMain.cpp:113-525 | in every file, if the last line for a field before one that stops the program is written like this, the field is the value that stands there, however many blanks stand before it |
| `ConfigExamples.UnknownSectionSpins` | src/UserQueryMain/UserQueryMain.cpp:137-163 | the file "[MYSQLSERVER]", whose handler is commented out, keeps the program in its main loop |
| `ConfigExamples.CommentFirstUnderruns` | src/UserQueryMain/UserQueryMain.cpp:126-133 | the file "# settings" makes the search leave its buffer |
| `ConfigExamples.ThreeLinesIff` | src/UserQueryMain/UserQueryMain.cpp:419-498 | the files of a header and three equal lines of 1 to 445 one-letter tokens load exactly for at most 341 of them a line, whether or not the entries are whole, and otherwise leave the pointer array |
| `ConfigExamples.BrokenListGoesOn` | src/UserQueryMain/UserQueryMain.cpp:419-498 | behind three such lines, wherever they break off an entry, a section with any key of the program and a plain value, with any blanks and remark around them, is read and its field assigned |
| `ConfigExamples.AddressRead` | config/userQuery.conf:19 | the line "IP =  0.0.0.0" gives the address "0.0.0.0" |
| `ConfigFile.WholeApisIs` | src/UserQueryMain/UserQueryMain.cpp:461-491 | when every line of URLS begins with a new entry, the registered interfaces are determined by the texts of the file |
| `ConfigReader.Reader.GetLine` | src/CommonTools/Conf/Conf.cpp:40-54 | the buffer holds the next line, or its first 1023 characters |
| `ConfigReader.Reader.Seek` | src/UserQueryMain/UserQueryMain.cpp:126-135 | the search ends at the first header, the end of the file or an access outside the buffer |
| `ConfigReader.Reader.HandleUrls` | src/UserQueryMain/UserQueryMain.cpp:446-494 | a line of URLS adds its fields behind those of a broken entry, or leaves a buffer exactly as the fold says |
| `ConfigReader.Reader.HandleLine` | src/UserQueryMain/UserQueryMain.cpp:175-209 | one turn of a handler's loop is one step of the fold |
| `ConfigReader.Reader.ReadSection` | src/UserQueryMain/UserQueryMain.cpp:169-213 | a handler folds the lines up to the next header |
| `ConfigReader.Reader.MainLoop` | src/UserQueryMain/UserQueryMain.cpp:137-166 | the main loop is the fold over the rest of the file |
| `ConfigReader.LoadConfig` | src/UserQueryMain/UserQueryMain.cpp:113-166 | for every file: the outcome and the fields are those of the fold over its lines, and the registered interfaces those of its lists, given the fields that broken entries had in the buffer |
| `OrderMember.RebuiltHashes` | src/UserQueryUpdate/UserQueryUpdate.cpp:716-732 | whatever the member, what is put together again has four fields |
| `OrderMember.RebuiltIff` | src/UserQueryUpdate/UserQueryUpdate.cpp:716-732 | a member is put together as it was exactly when it has three '#' |
| `OrderMember.FieldsRecovered` | src/UserQueryUpdate/UserQueryUpdate.cpp:716-732 | four fields without '#' are found again |
| `OrderMember.RebuiltOneField` | src/UserQueryUpdate/UserQueryUpdate.cpp:716-732 | a member without any '#' becomes all four fields |
| `Settlement.ProgramNamesDistinct` | src/UserQueryUpdate/UserQueryUpdate.cpp:663-735 | status keys are distinct from each other and from all other keys the pass uses |
| `Settlement.Updater.Turn` | src/UserQueryUpdate/UserQueryUpdate.cpp:687-769 | on a new date, in whatever order the members come, due orders are marked and, if they can be sent and the target is a set or missing, moved; each ranked set loses its lowest member once for every due order of its user; nothing else changes in sets, ranked sets and texts; on the same date, or without a set of open orders, nothing happens |
| `Settlement.PassOne` | src/UserQueryUpdate/UserQueryUpdate.cpp:701-765 | one more member: due as before the pass, and the sets and texts change for it alone |
| `Settlement.PassConserves` | src/UserQueryUpdate/UserQueryUpdate.cpp:694-765 | a pass loses no order, doubles none, and adds none to the set of open ones |
| `Settlement.MovesIff` | src/UserQueryUpdate/UserQueryUpdate.cpp:708-748 | an order moves exactly when the server is asked to move it for some due member and the target is not another kind of value |
| `Settlement.MarkedIff` | src/UserQueryUpdate/UserQueryUpdate.cpp:741 | a pass marks the due members of the open set and no others |
| `Settlement.AloneMovesIff` | src/UserQueryUpdate/UserQueryUpdate.cpp:708-748 | an order that is sent for itself and for no other member moves exactly when it is due and the target is no other kind of value, and then has status 1; when it is due is `SettledOrders.LeavesIff` |
| `Settlement.FourFieldsAlone` | src/UserQueryUpdate/UserQueryUpdate.cpp:716-748 | with members of four fields that are one word without '%' and fit the command only, this is every order |
| `SettledOrders.LeavesIff` | src/UserQueryUpdate/UserQueryUpdate.cpp:694-748 | with such members only, and for all integers st, c and l printed under its status, count and limit key: the order leaves the open set, for the settled one, exactly when st is 0, c >= l and no text stands under its expiry key, each number as an int keeps it; it is then marked, and otherwise keeps its status |
| `SettledOrders.IntsLeaveIff` | src/UserQueryUpdate/UserQueryUpdate.cpp:708-748 | the same of the numbers themselves where an int holds them |
| `SettledOrders.UserRanksDrop` | src/UserQueryUpdate/UserQueryUpdate.cpp:732-749 | the ranked set "user#orderid" loses its lowest member once for every due order of this user |
| `Settlement.DueStaysIff` | src/UserQueryUpdate/UserQueryUpdate.cpp:708-748 | a due member is marked; it moves if it has three '#' and can be sent; where the commands of all members fit and have no '%' it stays in the open set exactly when it has not three '#' or has a blank |
| `Settlement.LoneOrderStaysIff` | src/UserQueryUpdate/UserQueryUpdate.cpp:708-748 | a store with any one order: it is due, marked, and stays exactly under that condition |
| `Settlement.RunConserves` | src/UserQueryUpdate/UserQueryUpdate.cpp:687-769 | over any number of passes the orders stay the same, in disjoint sets, and settled ones stay settled |
| `Settlement.SettledOnce` | src/UserQueryUpdate/UserQueryUpdate.cpp:687-769 | a settled order that is sent for no other member is not settled again by any later pass, even if added again, unless its status is reset from outside |
| `Settlement.ProgramSettles` | src/UserQueryUpdate/UserQueryUpdate.cpp:741-747 | the mark reads as settled |
| `UrlDomain.GetUrlDomain` | src/UserQueryTask/UserQueryTask.cpp:54-99 | the caller's string grows by the arranged host |
| `UrlDomain.ScanHost` | src/UserQueryTask/UserQueryTask.cpp:66-86 | the character loop sorts the labels of the host into the two vectors |
| `UrlDomain.UrlDomainConserves` | src/UserQueryTask/UserQueryTask.cpp:54-99 | the labels of the host are those of the result, "www" as often as it stands in front of the last label, and an empty last label |
| `UrlDomain.PartsSorted` | src/UserQueryStruct/UserQueryStruct.h:411-414 | the first vector has no suffix, the second only suffixes before its last label, which is not empty |
| `UrlDomain.DomainLabels` | src/UserQueryTask/UserQueryTask.cpp:54-99 | the labels of the result are the plain ones in order, then the suffixes in order, the last one last |
| `UrlDomain.DomainOfHost` | src/UserQueryTask/UserQueryTask.cpp:59-86 | whatever scheme stands in front of the host and whatever path behind it, the domain is that of the host alone |
| `UrlDomain.PartsSwapped` | src/UserQueryTask/UserQueryTask.cpp:71-86 | labels of different kinds before the last one may change places without a change of the result |
| `UrlDomain.PartsDropped` | src/UserQueryTask/UserQueryTask.cpp:71-77 | a dropped label before the last one leaves nothing |
| `UrlDomain.UrlDomainTwice` | src/UserQueryTask/UserQueryTask.cpp:54-99 | for every text, applying it twice is applying it once |
| `Counters.AddReport` | src/UserQueryStruct/UserQueryStruct.h:248-263 | every user of the other report is added in each counter modulo 2^64, all others stay |
| `Counters.PrintReport` | src/UserQueryCount/UserQueryCount.cpp:53-57 | the rows show each user of the report once with its four counters |
| `Counters.Count.constructor` | src/UserQueryCount/UserQueryCount.cpp:26-30 | the report holds what the workers recorded before, and their reports are empty |
| `Counters.Count.GetReport` | src/UserQueryCount/UserQueryCount.cpp:116-124 | the report grows by all worker reports, which are empty afterwards |
| `Counters.Count.Turn` | src/UserQueryCount/UserQueryCount.cpp:43-61 | the printed sums grow by the report and all worker reports, and both are empty afterwards |
| `Counters.StepConserves` | src/UserQueryCount/UserQueryCount.cpp:43-61 | recording, draining one worker, and printing with clearing each keep the balance modulo 2^64 |
| `Counters.RunConserves` | src/UserQueryCount/UserQueryCount.cpp:26-61 | in every run, for every user and printed counter, printed + report + worker reports = recorded, modulo 2^64 |
| `Counters.ErrorsLost` | src/UserQueryCount/UserQueryCount.cpp:43-61 | in every run no error is printed, and those recorded are in a report or were cleared, modulo 2^64 |
| `Replace.ReplaceAllDistinct` | src/CommonTools/Conf/Conf.cpp:272-281 | for old text that is not empty it ends with the left-to-right replacement of occurrences that do not overlap |
| `Replace.ReplaceAll` | src/CommonTools/Conf/Conf.cpp:262-271 | wherever the loop ends at all, it has replaced first occurrences until none is left |
| `Replace.EndsIff` | src/CommonTools/Conf/Conf.cpp:262-271 | for a new text that is no longer, the loop ends exactly when the texts differ or there is no occurrence |
| `Replace.NeverEnds` | src/CommonTools/Conf/Conf.cpp:262-271 | when the new text contains the old one, a text with an occurrence has one after any number of turns |
| `Replace.ApartIsDistinct` | src/CommonTools/Conf/Conf.cpp:262-281 | a new text that is no shorter, does not contain the old one, and of which no end begins the other: the loop ends, without an occurrence, with the left-to-right replacement |

## Left out

- The socket, TLS, SMTP and HTTP code, and the exchanges with the data hub: network input and output.
- The body of a task: it ends with success or failure, whichever.
- The memory-level races on the status queues and the worker reports: a push, a pop and a drain are one step each.
- The dispatcher's loops as code: the model has their steps, so the C++ control flow between two shared accesses is one step; epoll removal is taken to succeed, and a batch is not limited to 256 events.
- `UserDel`, and `UserIncr` with an expiry: the commands they send do not match their names.
- `GetValueSortedSet` and `RemoveSortedSet` of the connection: they read a reply before the check for null; the settlement has the effect of the latter on ranked sets only.
- How the client library reads a printed SADD or SMOVE text with '%', which is a format without its arguments, is a parameter; a text without '%' is cut at its blanks, as the library does, whose source is not part of this model.
- The reader of ZADD scores is a parameter: what Redis takes for a number is not modelled. A connection that loses a command is modelled by its effect on the store only; reconnecting is the subject of `DataRedis`.
- A key with an expiry keeps it, but no time passes in the model: the laws between requests are of keys that have not expired.
- UrlEncode.DecodedForm: '%' before characters that are no hexadecimal digits is decoded as the program does, but no law of its own is stated for the value.
- QueryApis.CutLine: what stood in the buffer at the pointers of a broken entry is not worked out; it is a result of the call, and `ConfigReader.LoadConfig` hands it on.
- ConfigReader.LoadConfig: the handlers of `[GOODS]`, `[MYSQLSERVER]` and `[MONITORAPIINFO]` are commented out in the program and absent here; bytes behind the terminator of a copied field are not kept.
- Replace.EndsIff: a new text that is longer than the old one, without containing it, is covered by `ApartIsDistinct` where no end of one begins the other; for the rest no condition is given, since whether it can be decided that a single rewriting rule always ends is an open problem.
- Counters.Count.Turn: the order of the printed rows is left open, and the date column and file names are not modelled.
- `MapIsEqual`, `SwapMap`, `GetMysqlFieldsUserInfo` and the MySQL, log, file, time and thread wrappers.
