# Tintirek: the client/server conversation, modelled and proved in Dafny

Tintirek's client (`trk`) and server (`trks`) talk over a stream of chunked packets. A
connection authenticates, with a ticket or a password and one retry, and then carries one
command or a counted list of commands. The client keeps its tickets in a line-oriented
session file; the server keeps users and tickets in an SQLite table and its connections in
a linked list. This project models that conversation layer by layer and proves what each
layer promises to the one above it. `dafny verify dfyconfig.toml` checks all of it.

| file | what it models |
|---|---|
| `Text.dfy`, `Numbers.dfy` | searching, cutting and splitting strings; printing and reading numbers, with `strtol`'s saturation and the narrowing to `int` |
| `TrkStrings.dfy`, `Ordering.dfy` | the two string classes on the heap, edited in place with wrapping index arithmetic; the two string orders |
| `Framing.dfy` | packets on the wire, the send loop, the receive loop under any read schedule |
| `AuthMessage.dfy`, `Crypto.dfy` | the authentication message and the server's tokenizer; hex printing, salted hashing, enrolment |
| `Session.dfy` | the session file, byte by byte, and as a map |
| `Statement.dfy`, `UserTable.dfy`, `Transaction.dfy` | the statement cursor, the four user queries, the transaction object |
| `Conversation.dfy`, `Lockstep.dfy` | one `SendCommand` conversation as steps of the two sides; the sides stay in step |
| `World.dfy`, `Tickets.dfy` | many clients against one table under every interleaving; which tickets are accepted |
| `Passwords.dfy` | what it takes to be let in, and where every ticket comes from |
| `Stores.dfy`, `Agreement.dfy` | the session files, move by move; session file against the user's row after a login and after a logout |
| `Lasting.dfy`, `Login.dfy` | agreement and logins that outlast their conversation; runs in which a login succeeds, and a logout that is not carried out |
| `Wire.dfy` | the conversations' packets fit the framing, so channels of packets are streams of bytes |
| `Commands.dfy`, `Information.dfy`, `Answers.dfy` | splitting commands, the commands the server knows, the `GetInformation` reply; what the client reads in answer |
| `MultipleCommands.dfy`, `Dialogue.dfy`, `DialogueOutcome.dfy` | the server's recursion over announced counts; the two sides of a many-command conversation; exactly when it ends well |
| `ClientList.dfy`, `CommandQueue.dfy` | the server's linked list of clients, the client's linked queue of commands |
| `Shipped.dfy`, `Limits.dfy` | two conversations that cannot succeed as the code stands: a queue sent without authentication, a credential smuggled in with a user name |

Main results:

- A packet comes out whole, and the stream stops right behind it, for every message without
  NUL of less than 2^31 bytes and every way the bytes arrive (`Framing.RoundTripAll`,
  `Framing.Connection.ReceivePacket`, `Framing.Connection.ReceiveAll`).
- With any number of clients, any interleaving, any clocks, passwords and failing updates, a
  conversation that cannot go on is done on both sides with the same verdict, except in two
  named cases (`World.NoDeadlock`); a conversation has at most ten steps
  (`World.MoveKeepsStep`).
- A password match implies that the user's row is there, so the server ends without an answer
  exactly when the engine failed the very ticket update (`World.FaultedIff`).
- A password is accepted exactly when its rounds give the hash the user was enrolled with, a
  wrong one is refused, nobody is let in but by an accepted credential, and every ticket ever
  issued goes back to an accepted password of its user (`Passwords.PasswordAcceptedIff`,
  `Passwords.WrongPasswordRefused`, `Passwords.InByJudgement`, `Passwords.TicketsAreEarned`).
- A ticket login is accepted exactly when the ticket is the one issued by the user's latest
  password login, with no logout after it, and less than a day old (`Tickets.TicketAcceptedIff`).
- After a password login the client's file answers the very ticket in its user's row, whichever
  way it was stored; after a logout the file answers nothing, and the row has been reset exactly
  when the engine did not fail that (`Agreement.SessionAgrees`, `Agreement.FileIsRow`). File and row go on saying the same, through any later conversations, until somebody logs in
  or out as that user (`Lasting.AgreementLasts`).
- For a day after the login, in any number of conversations and whatever other clients do short
  of logging in or out as that user, the client is let in with its ticket, without a password
  and without a refusal, as long as no query fails (`Lasting.StaysLoggedIn`).
- From every state of the system a client that is between conversations can log an enrolled
  user in, whatever its file holds for the url: with a ticket that is good, with the password,
  or with the password in the retry after a stale ticket (`Login.EnrolledLoginSucceeds`). This
  and the two results before it are about user names and stored tickets without `;`, urls
  without `=` and newline, and files whose lines are ended and hold no empty ticket.
- While names, commands and stored tickets are NUL-free and not too long, both channels of a
  conversation are byte streams of framed packets (`Wire.ChannelsAreStreams`).
- The client is told OK exactly for a command the server carries out, and reads the text that
  belongs to it (`Answers.OutcomeIsAnswer`, `Answers.InformationAnswered`,
  `Answers.PathAnswered`).
- The server's nested recursion does what a small counting machine does
  (`MultipleCommands.Connection.HandleCommand`), and a many-command conversation ends cleanly
  exactly when the list is what it announces or a due command is refused
  (`DialogueOutcome.EndsCleanlyIff`).

Properties that do not hold of the code as it stands, each with the exact condition under
which it does:

- The counters of `SendPacket` are of type `int` and hold exactly for messages of less than
  2^31 bytes (`Framing.CountersFit`).
- The prefix test of the session file's Change and Delete agrees with the key test of Get
  exactly for urls without `=` (`Session.PrefixIsKey`). Whether a saved ticket is found again
  is told for every file, url and ticket (`Session.SaveThenLookup`): a new url must be free of
  `=` and newline, the ticket of newline, and the last line must be ended.
- The server recovers the client's credential exactly when neither part contains `;`
  (`AuthMessage.MessageRoundTrip`). A user name with a smuggled ticket deadlocks a client that
  cannot keep a session file (`Limits.RiskyDeadlocks`, `Lockstep.StuckOnlyIf`).
- An answered logout has reset the row exactly when the engine did not fail the reset, whose
  result the server ignores (`Agreement.SessionAgrees`); when it did, the client has dropped a
  ticket that the row still takes (`Login.LogoutLeavesTicket`).
- A command parameter is the segment that was written exactly when it is the last one
  (`Commands.ParametersAndSegments`); a path with `?` in it arrives whole exactly when the rest
  from the first `?` on is short enough (`Commands.PathRoundTrip`).
- `AppendToListUnique` does what its comment says exactly when the element is not the head
  (`ClientList.AppendIsUnique`).
- An enrolled password verifies for every digest exactly when the count fits an `int` or is so
  negative that neither side makes a round (`Crypto.EnrolledPasswordVerifies`).
- The clamp of `erase` and `substr` keeps inside the text exactly when start plus count does
  not wrap (`TrkStrings.ClampSafe`); `strncpy` loses what is behind a NUL exactly when that is
  not all NULs (`TrkStrings.StrNCpyKeeps`).
- `add` and `edit` of a directory are always refused, because the client does not authenticate
  before it sends the queue and the server always does (`Shipped.DirectoryRefused`).

Conventions. A `char` stands for one byte. `npos` is written -1 in specifications, so that
`npos + 1` is 0 as in unsigned arithmetic; `TrkStrings.dfy` uses the unsigned values
themselves. Outside `Framing.dfy` and `TrkStrings.dfy` strings are NUL-free, as everything that
passes through `operator<<` is, and `<<` is concatenation. Clocks, typed passwords, what the
server prints about itself, the digest, read sizes and failing calls are parameters. No
proof uses automatic induction: a lemma to which Dafny would apply it says `{:induction false}`.

## Model

| member | source | states |
|---|---|---|
| Framing.CountersFit | tintirek/libtrk_client/connect.cpp:151-159 | the `int` counters of the send loop hold exactly for messages of less than 2^31 bytes |
| Framing.Connection.SendPacket | tintirek/libtrk_client/connect.cpp:149-206 | for such messages without NUL sends exactly the packet's encoding, or stops at a proper part of it and only because a send failed |
| Framing.Connection.Recv | tintirek/libtrk_client/connect.cpp:542-564 | hands out a front part of what is to come, never more than asked for, and is never asked for more than the 1024 bytes of its buffer |
| Framing.Connection.Send | tintirek/libtrk_client/connect.cpp:530-540 | all or nothing |
| Framing.Connection.Fill | tintirek/trks/server.cpp:398-416 | the inner loop gathers exactly the wanted bytes over any schedule of partial and empty reads, or fails only on a failing read |
| Framing.Connection.ReceivePacket | tintirek/trks/server.cpp:388-438 | for every read schedule returns the packet at the front of the stream and leaves the stream right behind it; fails only on a failing read; terminates across header and body switches |
| Framing.HeaderReads | tintirek/libtrk_client/connect.cpp:162-165 | a header is three upper-case digits that read back as the size, then CR LF |
| Framing.RoundTrip | tintirek/libtrk_client/connect.cpp:149-258 | decoding an encoded NUL-free message gives the message and the untouched rest of the stream |
| Framing.RoundTripAll | tintirek/trks/server.cpp:329-438 | any sequence of messages sent back to back decodes to them in order |
| Framing.Connection.ReceiveAll | tintirek/trks/server.cpp:388-438 | one `ReceivePacket` after the other over one read schedule returns exactly the messages sent, in order, and stops right behind the last; a failing read leaves the first ones received |
| Framing.PrefixFree | tintirek/libtrk_client/connect.cpp:149-206 | equal streams that start with packets start with the same packet |
| Framing.DecodeLocal | tintirek/libtrk_client/connect.cpp:208-258 | receiving does not depend on bytes behind the packet |
| Framing.EncodedLength | tintirek/trks/server.cpp:329-386 | n bytes cost five more for every chunk begun and for the trailer |
| Framing.EncodeNulFree | tintirek/trks/server.cpp:339-355 | a NUL-free message makes a NUL-free packet |
| Numbers.Hex3RoundTrip | tintirek/libtrk_client/connect.cpp:162-164 | three printed hex digits are inverted by base-16 `stoi` |
| Numbers.DecimalStoi | tintirek/libtrk_cpp/trkstring.cpp:351-354 | a printed count reads back as the `int` with the same low 32 bits, so it survives exactly when it fits |
| Numbers.StoiForms | tintirek/libtrk_cpp/trkstring.cpp:351-354 | signs, saturation to 64 bits and narrowing to 32, whatever is behind the digits |
| Numbers.StoiPrefix | tintirek/libtrk_cpp/trkstring.cpp:351-354 | in base 16, and only there, a `0x` in front of the digits does not count |
| Text.Find | tintirek/libtrk_cpp/trkstring.cpp:173-187 | the least match at or after the start, npos when there is none |
| Text.ReplyParts | tintirek/libtrk_client/connect.cpp:63-79 | a reply built as head, newline, rest is taken apart into head and rest |
| TrkStrings.ClampSafe | tintirek/libtrk_cpp/trkstring.cpp:246-252 | the clamped count stays inside the text exactly when start plus count does not wrap or count is npos; for either width |
| TrkStrings.TrkString.Erase | tintirek/libtrk_cpp/trkstring.cpp:240-263 | the in-place loops leave the text without the clamped stretch, ended by NUL |
| TrkStrings.TrkString.Substr | tintirek/libtrk_cpp/trkstring.cpp:217-238 | a fresh string holding the clamped stretch as `strncpy` copies it, exactly that stretch for a text without NUL; the text itself untouched |
| TrkStrings.StrNCpyKeeps | tintirek/libtrk_cpp/trkstring.cpp:234 | `strncpy` keeps the whole stretch exactly when nothing but NULs is behind its first NUL |
| TrkStrings.TrkString.FindFirstNotOf | tintirek/libtrk_cpp/trkstring.cpp:189-201 | the least position outside the set, or npos when there is none |
| TrkStrings.TrkString.FindLastNotOf | tintirek/libtrk_cpp/trkstring.cpp:203-215 | the greatest position outside the set, right on the empty text through wrap-around |
| TrkStrings.TrkString.Append | tintirek/libtrk_cpp/trkstring.h:98-112 | the two C strings joined in a new buffer |
| TrkStrings.CString.Erase | tintirek/libtrk_core/string.c:223-236 | the same erase with 32-bit positions and one memmove |
| TrkStrings.CString.AppendCStr | tintirek/libtrk_core/string.c:238-245 | the suffix, as `strncpy` copies it, behind the text, ended by NUL |
| Ordering.TrkStringStrcmp | tintirek/libtrk_core/string.c:138-157 | the loop computes the lexicographic comparison by signed characters, shorter first |
| Ordering.CompareZero | tintirek/libtrk_core/string.c:138-157 | zero exactly on equal byte strings |
| Ordering.CompareDecides | tintirek/libtrk_core/string.c:138-157 | negative exactly for the text that ends first or has the smaller signed character where the two part |
| Ordering.CompareAntisymmetric | tintirek/libtrk_core/string.c:138-157 | swapping the arguments negates the result |
| Ordering.CompareTransitive | tintirek/libtrk_core/string.c:138-157 | transitive, strictly so when either step is strict |
| Ordering.OrdersAgree | tintirek/libtrk_cpp/trkstring.cpp:331-334 | agrees with `strcmp` exactly when the first difference does not cross the sign bit |
| Ordering.SevenBitSameHalf | tintirek/libtrk_cpp/trkstring.cpp:331-334 | 7-bit texts never do |
| AuthMessage.ParseCredential | tintirek/trks/server.cpp:91-122 | the erase loop understands what the split message means, token by token, last one winning |
| AuthMessage.MessageRoundTrip | tintirek/libtrk_client/connect.cpp:462-485 | the server understands what the client meant exactly when user name and secret are free of `;` |
| AuthMessage.MessageTokens | tintirek/libtrk_client/connect.cpp:462-485 | the tokens of the message the client builds |
| AuthMessage.PasswordWins | tintirek/trks/server.cpp:108-117 | an offered password is what gets checked, never taken for a ticket, whatever the user name holds |
| AuthMessage.ApplyPair | tintirek/trks/server.cpp:99-106 | a token is cut at its first `=`, so values may hold `=` |
| Crypto.HexByteReads | tintirek/libtrk_cpp/crypto.cpp:204-206 | the two characters of a byte read back as its value in base 16 |
| Crypto.PrintDigest | tintirek/libtrk_cpp/crypto.cpp:201-213 | a hex pair per byte that reads back as that byte, with the separator between neighbours only |
| Crypto.HashShape | tintirek/libtrk_cpp/crypto.cpp:194-216 | hashes have 64 characters, tickets 95, all hex digits or colons |
| Crypto.PlainIsSafe | tintirek/libtrk_cpp/crypto.cpp:201-213 | so they hold no separator of the message or of the session file |
| Crypto.EnrolledHash | tools/add-new-user/main.go:54-68 | the enrolment loop makes count rounds of salted hashing on the hashed password |
| Crypto.VerifierHash | tintirek/trks/server.cpp:134-138 | the server's loop makes the same rounds on what the client sent |
| Crypto.RoundsAgree | tintirek/trks/database.cpp:48 | both sides make the same number of rounds exactly when the count fits an `int` or is so negative that neither makes any |
| Crypto.RoundsTell | tintirek/trks/server.cpp:134-138 | different numbers of rounds below 2^64 are told apart by some digest, for every password and salt |
| Crypto.EnrolledPasswordVerifies | tintirek/trks/server.cpp:134-140 | for every password, salt and 64-bit count: the server computes what enrolment stored, whatever the digest, exactly when the rounds agree |
| Crypto.SaltsTell | tintirek/trks/server.cpp:137 | two salts give the same result for every digest exactly when they are the same or no round is made |
| Crypto.SecretsTell | tintirek/trks/server.cpp:134-138 | two secrets give the same result for every digest exactly when they are the same |
| Session.Store.CheckSessionFileExists | tintirek/libtrk_client/passwd.cpp:17-53 | true exactly when the file is there or can be created, and then it is there |
| Session.Store.SaveSessionTicket | tintirek/libtrk_client/passwd.cpp:55-99 | one entry appended to the bytes, a missing file created first; nothing appended when the file cannot be opened for it |
| Session.Store.DeleteSessionTicket | tintirek/libtrk_client/passwd.cpp:101-157 | rewrites the file without the lines that start with the url and `=`; leaves it alone when the new file cannot take its place |
| Session.Store.ChangeSessionTicket | tintirek/libtrk_client/passwd.cpp:159-219 | rewrites those lines and keeps all others; leaves the file alone when the new one cannot take its place; a missing file is only created |
| Session.Store.GetSessionTicketByServerURL | tintirek/libtrk_client/passwd.cpp:221-262 | the value of the first line whose key is the url, or the empty string, also when the file cannot be read |
| Session.PrefixIsKey | tintirek/libtrk_client/passwd.cpp:122-127 | the prefix test and the key test pick the same lines exactly for urls without `=` |
| Session.LookupIsView | tintirek/libtrk_client/passwd.cpp:236-250 | looking up is reading a map of first values |
| Session.ChangeView | tintirek/libtrk_client/passwd.cpp:180-192 | Change updates a present url only and no other |
| Session.DeleteView | tintirek/libtrk_client/passwd.cpp:122-130 | Delete removes its url and no other |
| Session.SaveView | tintirek/libtrk_client/passwd.cpp:65-71 | Save adds only where the url was absent |
| Session.DoRefines | tintirek/libtrk_client/passwd.cpp:55-219 | each operation on the file's bytes is the operation on the map |
| Session.DoAllRefines | tintirek/libtrk_client/passwd.cpp:55-219 | and so is every sequence of operations |
| Session.SaveThenLookup | tintirek/libtrk_client/passwd.cpp:55-71 | for every file, url and ticket: exactly when the file answers the ticket after Save |
| Session.MissingFile | tintirek/libtrk_client/passwd.cpp:78-92 | Change and Delete only create a missing file, Save also writes into it |
| Session.LinesAppendUnterminated | tintirek/libtrk_client/passwd.cpp:65-68 | appended to a file without final newline, the entry becomes part of the last line |
| Statement.Statement.TryExecuteStep | tintirek/libtrk_cpp/sqlite3.cpp:197-217 | one move of the cursor and its result code |
| Statement.Statement.ExecuteStep | tintirek/libtrk_cpp/sqlite3.cpp:179-195 | tells row from end, and throws after the end or on failure |
| Statement.Statement.Execute | tintirek/libtrk_cpp/sqlite3.cpp:219-239 | one move of the cursor and the number of changes; throws on a row, after the end or on failure |
| Statement.Statement.Reset | tintirek/libtrk_cpp/sqlite3.cpp:241-256 | back to the start, and an exception exactly when the last step had failed |
| Statement.Statement.GetColumn | tintirek/libtrk_cpp/sqlite3.cpp:371-376 | the cell of the current row, an exception without one or out of range |
| Statement.Statement.GetColumnIndex | tintirek/libtrk_cpp/sqlite3.cpp:410-428 | the last column of that name through the lazily filled map, an exception when there is none |
| Statement.LastIndicesSpec | tintirek/libtrk_cpp/sqlite3.cpp:412-419 | the filled map answers like a scan taking the last duplicate |
| Statement.RunInOrder | tintirek/libtrk_cpp/sqlite3.cpp:179-256 | in every run the rows come in order once each, never both flags, nothing moves after the end until a reset |
| Statement.RunComplete | tintirek/libtrk_cpp/sqlite3.cpp:179-256 | undisturbed steps after a reset hand out the whole result and then end |
| UserTable.UserDb.GetUserPasswdFromDB | tintirek/trks/database.cpp:38-55 | found exactly for a present user whose query does not fail; the count narrowed to 32 bits |
| UserTable.UserDb.GetUserTicketFromDB | tintirek/trks/database.cpp:57-73 | the same; NULL reads as the empty ticket and end 0 |
| UserTable.UserDb.ResetUserTicketDB | tintirek/trks/database.cpp:75-87 | clears the user's ticket columns and nothing else, or nothing at all |
| UserTable.UserDb.UpdateUserTicketDB | tintirek/trks/database.cpp:89-105 | sets the user's ticket with an end 86400 seconds ahead and nothing else, or nothing at all |
| Transaction.Connection.Execute | tintirek/libtrk_cpp/sqlite3.cpp:65-80 | throws exactly when the engine refuses or a fault strikes, and then changes nothing; a statement outside a transaction is committed at once |
| Transaction.TrkTransaction.Commit | tintirek/libtrk_cpp/sqlite3.cpp:503-514 | throws exactly when the transaction was ended before or the COMMIT fails, and then changes no data; otherwise commits |
| Transaction.TrkTransaction.Rollback | tintirek/libtrk_cpp/sqlite3.cpp:516-527 | throws exactly when the transaction was ended before or the ROLLBACK fails, and then changes no data; otherwise rolls back |
| Transaction.TrkTransaction.Destroy | tintirek/libtrk_cpp/sqlite3.cpp:488-501 | rolls back unless ended, swallowing exactly the failure of that |
| Transaction.TryEndings | tintirek/libtrk_cpp/sqlite3.cpp:503-527 | of any number of Commit and Rollback calls the first that is not struck succeeds and all others throw |
| Transaction.Scope | tintirek/libtrk_cpp/sqlite3.cpp:480-527 | for every body, every sequence of ending calls and every fault: all of the body exactly when the ending call that succeeds is a Commit, none of it otherwise; still open exactly when none succeeds and the destructor fails too |
| Conversation.JudgeMessage | tintirek/trks/server.cpp:82-205 | the server's tokenizer, queries and hash loop decide what the specification decides |
| Lockstep.AskKeeps | tintirek/libtrk_client/connect.cpp:460-498 | sending a credential keeps the sides in step |
| Lockstep.JudgeKeeps | tintirek/trks/server.cpp:124-204 | judging it keeps them in step, for any table, clock and failing query |
| Lockstep.StoreKeeps | tintirek/trks/server.cpp:148-161 | the answer goes out only after a successful update |
| Lockstep.HearKeeps | tintirek/libtrk_client/connect.cpp:499-528 | the client's reading of the verdict matches where the server is |
| Lockstep.CommandKeeps | tintirek/libtrk_client/connect.cpp:49-55 | sending the command keeps them in step |
| Lockstep.ServeKeeps | tintirek/trks/server.cpp:46-62 | answering it, or not answering `Close`, keeps them in step |
| Lockstep.ReplyKeeps | tintirek/libtrk_client/connect.cpp:55-87 | reading the reply keeps them in step |
| Lockstep.BadTicketOffered | tintirek/trks/server.cpp:179-192 | the server asks for a second credential only if the client has one to give, or the user name smuggled one in |
| Lockstep.StuckOnlyIf | tintirek/trks/server.cpp:160-161 | who cannot go on is done on both sides with one verdict, or the update failed, or a risky name met a client without a file |
| Lockstep.CleanNameNotRisky | tintirek/libtrk_client/connect.cpp:463-465 | names without `;` are never risky |
| World.MoveKeepsStep | tintirek/libtrk_client/connect.cpp:460-528 | every move keeps the two sides in step and uses up one of at most ten |
| World.RunKeepsStep | tintirek/trks/server.cpp:34-65 | so does every run of all clients |
| World.FaultedIff | tintirek/trks/server.cpp:148-161 | over every run the server ends without an answer after a password match exactly when the engine failed the ticket update of that conversation; the users it works for are in the table |
| World.CanMoveGoesOn | tintirek/trks/server.cpp:34-205 | the guards of the progress argument are those of the moves |
| World.NoDeadlock | tintirek/trks/server.cpp:34-205 | over every interleaving of any number of clients: a conversation that cannot go on is done with an agreed verdict, but for a failed update and a risky name without a file |
| World.CleanRunsFinish | tintirek/trks/server.cpp:34-205 | with no failed update, and a clean name or a usable file, it is done |
| Tickets.LastWriteRules | tintirek/trks/database.cpp:75-105 | a row's ticket columns are what the last login or logout of its user wrote |
| Tickets.RunKeepsHistory | tintirek/trks/server.cpp:126-197 | over every run the table is its history, and every ticket judgement on record was right at its moment |
| Tickets.TicketAccepted | tintirek/trks/server.cpp:163-186 | accepted exactly when the ticket is the one left by the last write and has not ended, whatever the table held at first |
| Tickets.TicketAcceptedIff | tintirek/trks/server.cpp:163-186 | accepted exactly when it is the user's latest issued ticket, not reset since, and less than 86400 seconds old |
| Passwords.JudgeDecides | tintirek/trks/server.cpp:124-204 | for every clean name and credential: good exactly when the password's rounds give the stored hash, or the ticket is the row's and has not ended; a bad ticket exactly when only that fails; all else rejected |
| Passwords.TicketsTell | tintirek/trks/server.cpp:142-148 | two logins get the same ticket for every digest exactly when time and stored hash agree |
| Passwords.RunKeepsEnrolment | tintirek/trks/database.cpp:75-105 | no run changes who is enrolled, or a hash, salt or count |
| Passwords.PasswordAcceptedIff | tintirek/trks/server.cpp:131-150 | over every run a password is accepted exactly when its rounds give the enrolled hash |
| Passwords.TicketsAreEarned | tintirek/trks/server.cpp:140-161 | over every run every issued ticket goes back to an accepted password of its user, at the time hashed into it |
| Passwords.InByJudgement | tintirek/trks/server.cpp:82-205 | the server starts to work for a user exactly when it has accepted a credential of that user |
| Passwords.WrongPasswordRefused | tintirek/libtrk_client/connect.cpp:526-528 | a password that does not fit is refused, at once or in the retry, and changes neither table nor file |
| Stores.StoredIsFound | tintirek/libtrk_client/connect.cpp:506-515 | stored by Change or by Save, the new ticket is what the file answers, and other urls answer as before |
| Stores.DeletedIsGone | tintirek/trk/commands/logout.cpp:37-40 | after the deletion the file answers nothing for the url, and other urls answer as before |
| Stores.GoodMoves | tintirek/libtrk_client/connect.cpp:460-528 | every move keeps file, conversation and server history in agreement |
| Stores.RunKeepsGood | tintirek/trk/commands/logout.cpp:21-42 | so does every run |
| Stores.StoredTicketWorks | tintirek/trks/server.cpp:171-186 | a client whose file agrees with the row is let in without a password until the ticket ends |
| Stores.EnrolledJudged | tintirek/trks/server.cpp:131-150 | the enrolled password is judged good for every digest, salt and count that fits |
| Agreement.JudgedIsUser | tintirek/trks/server.cpp:91-124 | from a client without `;` in its name and tickets the server reads that client's own name |
| Agreement.NamedMoves | tintirek/trks/server.cpp:124-204 | every move keeps the server working, and the history recording, for the client's own user |
| Agreement.ResetMoves | tintirek/trks/server.cpp:283-287 | every move keeps this: an answered logout is on record as a reset exactly when the engine did not fail it |
| Agreement.VerdictStored | tintirek/libtrk_client/connect.cpp:502-517 | whenever the client is let in: a ticket in the packet is one the server has put on record, and the file then answers it; without one nothing was issued |
| Agreement.SessionAgrees | tintirek/trks/server.cpp:148-158 | after a password login the file answers the ticket the server wrote, and the row holds it until somebody logs in or out as that user; after a logout the file answers nothing, and the row holds none exactly when the reset did not fail; with clean names that user is the client's |
| Agreement.FileIsRow | tintirek/libtrk_client/connect.cpp:502-517 | the client's file and its own user's row hold the same ticket after a password login, and none after a logout |
| Agreement.NextLoginAccepted | tintirek/trks/server.cpp:163-186 | so the next conversation gets past the server with the stored ticket |
| Lasting.HoldingMoves | tintirek/libtrk_client/connect.cpp:467-475 | no move of a client whose ticket is good leads it to its retry, to a refusal or to a write of its row |
| Lasting.StaysLoggedIn | tintirek/trks/server.cpp:163-186 | over every continuation of a run, for a day after the login and while nobody else logs in or out as the user: the client needs no password and is never refused, and file and row keep the ticket |
| Lasting.FileUntouched | tintirek/libtrk_client/connect.cpp:502-517 | while the user's row is not written, no move of the client changes what the file answers for that url |
| Lasting.AgreementLasts | tintirek/trks/database.cpp:75-105 | over every continuation of a run, with any conversations of the client in between: file and row keep saying the same until somebody logs in or out as the user |
| Login.TicketRound | tintirek/libtrk_client/connect.cpp:518-524 | a stored ticket is offered first: the client is let in while the row takes it, and otherwise both sides are ready for a password on the same connection |
| Login.PasswordRound | tintirek/trks/server.cpp:131-161 | the enrolled password, at once or in the retry, ends with a new ticket in the row for a day and in the client's file |
| Login.EnrolledLoginSucceeds | tintirek/libtrk_client/connect.cpp:460-528 | from every state of the system, whatever the file holds for the url, the client logs the enrolled user in, and file and row end with the same ticket |
| Login.LogoutLeavesTicket | tintirek/trks/server.cpp:283-287 | a logout whose reset fails: the client drops its ticket, the row keeps it, and it is still good |
| Wire.AnswerSendable | tintirek/trks/server.cpp:258-325 | every answer to a short NUL-free command is a message the framing carries |
| Wire.ChannelsAreStreams | tintirek/libtrk_client/connect.cpp:149-258 | over every run both channels of packets are streams of framed bytes: sending appends an encoding, receiving takes the front packet, all can be read back |
| Commands.SplitCommand | tintirek/trks/server.cpp:237-256 | the loop yields the command and its parameters |
| Commands.ChooseCommand | tintirek/trks/server.cpp:258-325 | which command a message is |
| Commands.GetInformationIsInformation | tintirek/trks/server.cpp:258 | the information command is known |
| Commands.OtherWords | tintirek/trks/server.cpp:289-325 | the three commands with a parameter miss it when they stand alone; every other word is no command |
| Answers.InformationAnswered | tintirek/trks/server.cpp:258-281 | the client reads back version, uptime and time exactly when none holds a `;` |
| Answers.PathAnswered | tintirek/trks/server.cpp:315-324 | Add and Edit are answered with the path and their text exactly when the path arrives whole |
| Answers.WordAnswered | tintirek/trks/server.cpp:283-287 | Logout is answered with an empty text, an unknown word with the error |
| Answers.NestedAnswer | tintirek/trks/server.cpp:207-233 | inside a many-command conversation a command gets the same answer |
| Answers.OutcomeIsAnswer | tintirek/libtrk_client/connect.cpp:55-87 | over every run the client is told OK exactly for a command the server carries out, or has sent Close |
| Commands.ParametersAndSegments | tintirek/trks/server.cpp:243-250 | one parameter per `?`, each starting with the segment written, equal to it exactly for the last |
| Commands.PathRoundTrip | tintirek/trks/server.cpp:315-324 | the path of Add and Edit arrives whole exactly when it has no `?` or little follows the first |
| Commands.AnnouncementRoundTrip | tintirek/trks/server.cpp:299 | `MultipleCommands?n` arrives as n for every non-negative `int` |
| MultipleCommands.Connection.HandleCommand | tintirek/trks/server.cpp:235-327 | the whole recursion below a command equals the one-message machine; errors and a failing receive are wrapped once per open announcement, a failing send cuts the packets short; one reset per Logout |
| MultipleCommands.Connection.HandleConnectionMultiple | tintirek/trks/server.cpp:207-233 | one nested command: everything sent but the error its callers wrap, failing receives and sends included; terminates on messages left |
| MultipleCommands.Connection.HandleConnection | tintirek/trks/server.cpp:46-64 | the connection's packets are the machine's packets; a failing receive inside an announcement adds one error packet; after a failing send they are the first of the machine's packets and at most one error packet; without a failure the thread starves having sent the machine's packets so far |
| MultipleCommands.ChainUnwraps | tintirek/trks/server.cpp:301-309 | each open announcement puts one ERROR line in front of the text |
| Dialogue.RunsAreShort | tintirek/libtrk_client/connect.cpp:106-144 | every run of the many-command conversation ends, within three steps per command and one |
| Dialogue.ReachableInvariant | tintirek/libtrk_client/connect.cpp:106-144 | every reachable state: replies and unread packets are what the server sent for the commands it took, in order |
| DialogueOutcome.OnAccepted | tintirek/trks/server.cpp:289-313 | an accepted command costs one due command, adds what it announces, and is answered first |
| DialogueOutcome.ExactSucceeds | tintirek/libtrk_client/connect.cpp:106-144 | an exact list: both sides stop, each command has its own reply in order, only the final `NONE` is unread |
| DialogueOutcome.RefusedFails | tintirek/trks/server.cpp:299-309 | the first refused command: earlier replies, one error packet, nothing unread, both sides stop |
| DialogueOutcome.EndsCleanlyIff | tintirek/trks/server.cpp:207-233 | a conversation ends cleanly exactly when its list is exact or a due command is refused |
| DialogueOutcome.AnnouncedIsExact | tintirek/trk/commands/add.cpp:31-46 | the queue built for a directory is exact |
| CommandQueue.CommandQueue.Enqueue | tintirek/libtrk_client/connect.h:66-79 | the node is last, all others keep their places, stale rear or not |
| CommandQueue.CommandQueue.Dequeue | tintirek/libtrk_client/connect.h:80-92 | the first node is unlinked and freed, and no other |
| CommandQueue.CommandQueue.Peek | tintirek/libtrk_client/connect.h:93-102 | the first command, or the empty string |
| CommandQueue.CommandQueue.Destroy | tintirek/libtrk_client/connect.h:57-63 | the destructor frees every node once |
| CommandQueue.BuildQueue | tintirek/trk/commands/edit.cpp:31-46 | the announcement with the count of files, then one command per file in order |
| ClientList.ClientInfo.Delete | tintirek/trks/server.h:29-40 | the destructor frees the node and its whole chain, each once |
| ClientList.Server.AppendToListUnique | tintirek/trks/server.h:177-203 | rejects a linked element other than the head, otherwise links it last; an appended head drops the rest |
| ClientList.AppendIsUnique | tintirek/trks/server.h:176-203 | which is the promised unique append exactly when the element is not the head |
| ClientList.Server.RemoveFromList | tintirek/trks/server.h:206-239 | unlinks exactly the requested node and frees it alone |
| ClientList.Server.Cleanup | tintirek/trks/Linux/linuxserver.cpp:210-214 | frees every linked client |
| ClientList.RunKeepsClients | tintirek/trks/server.h:177-239 | over any sequence of calls no client is linked twice, and while the head is not appended again the list holds exactly those whose last call was an append |
| Information.ReadInfo | tintirek/trk/commands/info.cpp:33-66 | the loop reads the fields of the split reply |
| Information.InfoRoundTrip | tintirek/trks/server.cpp:270-279 | the client recovers what the server printed exactly when no value holds a `;` |
| Information.UptimeRoundTrip | tintirek/trks/server.cpp:265-268 | hours, minutes and seconds give the uptime back exactly while the hours fit an `int` |
| Limits.RiskyDeadlocks | tintirek/libtrk_client/connect.cpp:467-486 | for every risky name a table and four moves after which the client has given up and the server waits |
| Limits.SomeNameIsRisky | tintirek/trks/server.cpp:91-122 | such a name exists |
| Shipped.NoUserRejected | tintirek/trks/server.cpp:91-126 | a message without `=` is rejected as a credential, for every table |
| Shipped.QueueRefused | tintirek/libtrk_client/connect.cpp:96-144 | a queue whose first command holds no `=`: every run has at most three steps and stops only with the refusal as the one reply, the server closed, nothing on its way and no command served |
| Shipped.DirectoryRefused | tintirek/trk/commands/add.cpp:31-46 | so for the queue of every directory, table and clock |
| Shipped.RefusalReachable | tintirek/trks/server.cpp:39-44 | and the three steps can be taken |

## Left out

- Sockets, accept loops, TLS and its preamble, threads and sleeps: platform code; a connection is a byte stream or a pair of packet channels.
- Framing.Connection.Send: a send is all or nothing, because the source checks it only for a non-positive result; what the peer sees after a partial one is not modelled.
- Framing.Connection.SendPacket: messages of 2^31 bytes and more, for which the counters are negative and the header overruns its buffer; messages with a NUL, of which the copies made on the way keep only the front.
- Malformed packets: a header that is no size between 0 and 1024, or a NUL inside a packet, is outside what the receiver is written for; `Framing.Decode` gives no packet there.
- A peer that disconnects: the receive loop then reads nothing for ever; the model calls such a side waiting.
- SHA-256 and random salts: the digest is any function from strings to 32 bytes.
- SQLite itself and the SQL text: a statement is a list of rows with steps that may fail; an engine that rolls back by itself after an error is not modelled.
- Failing file operations in a conversation: there the session file is missing (and can or cannot be created) or readable and writable; the operations on the file themselves do model one that cannot be read, appended to or replaced.
- Several processes writing one session file at once: each client has its own.
- Interleaving inside a list operation: each call on the client list is one step.
- A client killed in mid-conversation: a client begins again only when its conversation is done or can no longer go on.
- Dialogue.ReachableInvariant: starts from an authenticated server, which the shipped client never reaches by this path (see `Shipped.DirectoryRefused`); sends and receives of this layer do not fail, and its use of the linked queue is the queue's own contract.
- Commands that read a parameter which is not there: `parameters[0]` of an empty vector has no defined result, so such messages are excluded.
- Case conversion, constructors and comparison operators of the strings, configuration files, command-line parsing, version checks, certificate trust: easy members or user interface.
- `trk_workspaceinfo_appendpath`: the same algorithm as `AppendToListUnique` on another record.
