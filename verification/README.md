# JAMS, modelled in Dafny

JAMS is a mail server whose protocol machines and codecs are written by hand in C++ (its TOML parser in C). This project models the parts with the most state, branching and arithmetic, and proves what they promise for every input, every run or every byte stream. `dafny verify dfyconfig.toml` checks it.

The shape is the same throughout. An operation is specified by functions on values. Where the original updates fields or walks a buffer step by step, a class or a method with loops does the same and is proved equal to those functions. The laws are lemmas about the functions, so they hold of the classes and methods too. The outside world (kernel, DNS answers, credential store, delivery, directory contents, TLS) is an arbitrary function or an arbitrary choice of events.

| module | original | main results |
|---|---|---|
| `Connection`, `EventLoop` | connection lifecycle of the io_uring loop | `ServerRun`, `NoPlaintext`, `EndedIff`, `RemovedStaysRemoved`, `ProgressKept`, `ClosingDrains` |
| `Sessions` | the sessions as the loop sees them | `ServerProgresses` |
| `UserData` | completion tags | `PackingInverts`, `TagsAreDistinct` |
| `Spf`, `SpfExact`, `SpfMeaning`, `SpfRecord`, `Cidr` | SPF evaluation in continuation-passing style, what a record means, CIDR tests | `CheckCallsBackOnce`, `PublishedHit`, `PublishedMiss`, `CallsBackIffReadable`, `FlatChecksAreShort`, `Matches4IsBitwise`, `Matches6IsBitwise` |
| `TomlDatum`, `TomlString` | TOML trees, unescaping in place, UTF-8 | `EquivIsEquality`, `TomlMergeLaw`, `TomlMergeAsDocumented`, `ParseNorm`, `DecodeInvertsEncode` |
| `DnsName`, `DnsMessage`, `DnsRoundTrip`, `DnsResolver` | wire codec and asynchronous resolver | `ReadIffChainEnds`, `DecodeInvertsWrite`, `DecodeInvertsQuery`, `DecodedFits`, `DecodeFaultsIff`, `EveryRun` |
| `SmtpFraming`, `SmtpText`, `SmtpSession`, `Sasl`, `Submission`, `Relay` | SMTP sessions, authentication gate, dot-stuffing | `ChunksMakeWhole`, `EveryConnection`, `DialogueDelivers`, `EveryRun`, `LoginOverConnection`, `ReentersIffRset`, `ReaderStopsAtEnd` |
| `ImapLiteral`, `ImapMailbox` | literals, sequence numbers, EXPUNGE | `LiteralCompletes`, `ClientFollowsRun`, `ExpungeByFlags`, `AlwaysNumbered` |
| `Dkim`, `Getline` | body canonicalisation | `RelaxedTwice`, `RelaxedIgnoresEmptyLines`, `SimpleTwice` |

`Common` and `Bits` hold small shared definitions.

## Where a promise does not hold as stated

The code is modelled as it is. Where it falls short of what its comments or headers say, a lemma shows the case and the exact condition is proved.

- A connection is stranded exactly when a read is cancelled (ECANCELED, ENOENT) and the connection is not a closing one with a write still in the kernel: `ProgressKept`, `CancelledReadStrands`. A TLS flag left set would arm a second read (`LingeringFlagReadsTwice`), but none of the three sessions leaves it set (`Sessions.CallsClearFlag`), so a server that carries these sessions from accept on strands nothing while no read is cancelled (`Sessions.ServerProgresses`).
- SPF: a check makes its one callback if and only if no mechanism that it reaches, in its own record or in included and redirected ones, has an unreadable prefix length (`CallsBackIffReadable`). An unreadable length is an exception from stoi, or an ip6 length beyond 128, which makes the comparison run past the address; the two are told apart. `BareSlashFaults` gives a record. Both depth guards are unreachable: the direct evaluator has none and agrees (`CheckCallsBackOnce`).
- SPF: the ten-lookup limit holds on every include/redirect chain. For a whole check it holds where no record holds an include (`FlatChecksAreShort`), and with includes there is no limit at all: m includes make 1 + m lookups, for every m (`IncludesEscapeTheLimit`).
- SPF: a redirect is followed only from a record without mechanisms (`CheckEvaluates`); section 6.1 of RFC 7208 follows it whenever no mechanism matches. The mechanism `exists` is spelt "exits", so the right spelling is an unknown mechanism, a permanent error (`ErrorsAndEnd`).
- The merge header (include/utils/config/tomlc17.h:228-240) appends whenever the held value is an array of tables; the code appends only when both are. They agree if and only if nowhere a non-empty array of tables meets an array that is not one (`TomlMergeAsDocumented`); `ClashingPair` is a pair of documents where they do not.
- utf8_to_ucs accepts overlong forms: `EncodeInvertsShortest`, `OverlongIsRead`.
- DNS: MX and TXT data is read without a check that it lies in the message. Decoding reads outside it if and only if a record that is reached is MX with its preference beyond the end, or TXT whose strings lead out (`DecodeFaultsIff`); `DanglingTextFaults` is such a message.
- DNS: every send completion ends its query with ServFail, even a successful one (`SendEndsQuery`). OK is told if and only if a datagram comes for a pending id whose receive buffer is there and the reply answers it (`OkIff`). A reply with a foreign id loses that buffer (`StrayReplyLosesBuffer`), and as long as the query stays pending under this id it is not told OK (`LostBufferStaysLost`); a retry under a new id has a buffer again (`RetryRestoresBuffer`). A truncated reply gives ServFail, and the status Truncated is never reported (part of `DnsResolver.EveryRun`), although the header promises a retry over TCP.
- Submission: the SASL mechanism name is not made upper case, since the loop changes copies. The answer is independent of case if and only if the name is upper case already or names neither mechanism (`CaseMatters`, `LowerCaseIsRefused`).
- Submission: in every run the session breaks off if and only if an authenticated one gets a MAIL command with an argument under five bytes (`DownIffShortMail`); `ShortMailRun` is such a run. After a delivery its user is locked out (`DeliveryLocksOut`) and passes the gate again if and only if an RSET line comes (`ReentersIffRset`).
- IMAP: new mail is taken into the list without an EXISTS response, so a client has the server's list if and only if none was taken in since the last SELECT or CLOSE (`ClientFollowsRun`). An APPEND with size zero is never completed (`EmptyLiteralIsIgnored`).
- Relaxed canonicalisation drops the last byte of every line, CR or not, so appended empty lines go unnoticed exactly when the body is empty or ends in LF or white space: `RelaxedIgnoresEmptyLines`.

## Model

| member | source | states |
|---|---|---|
| `Connection.CompletionKeeps` | src/io/io_uring_loop.cpp:289-412 | for every session behaviour and result code, a read or write completion finds its connection live, and keeps inflight equal to what the kernel holds and the write queue in order |
| `Connection.AcceptedIsSafe` | src/io/io_uring_loop.cpp:248-287 | a fresh connection, its greeting queued by the session's constructor, satisfies the invariants and has one read outstanding |
| `Connection.ProgressKept` | src/io/io_uring_loop.cpp:289-412 | progress is kept if and only if the completion is not a cancelled read that leaves nothing else to wait for |
| `Connection.DrainStep` | src/io/io_uring_loop.cpp:474-501 | on a closing connection each completion lowers twice the reads plus the writes, which is at most three |
| `Connection.CancelledReadStrands` | src/io/io_uring_loop.cpp:299-302 | an idle connection whose read is cancelled stays in the tables with nothing outstanding |
| `Connection.LingeringFlagReadsTwice` | src/io/io_uring_loop.cpp:362-412 | with the TLS flag left set a write completion arms a second read |
| `Connection.ActionsQueue` | src/io/io_uring_loop.cpp:438-472 | what session code queues is read off its writes alone: the ciphertext once TLS is established, the data before that, in order, and nothing where encryption fails |
| `Connection.SealedIsCiphertext` | src/io/io_uring_loop.cpp:449-466 | under established TLS every chunk queued is what encryption made of some write |
| `Connection.CompletionQueues` | src/io/io_uring_loop.cpp:309-333 | a completion queues the sealed writes and then what the TLS engine has to send, and nothing else |
| `Connection.TlsMoves` | src/io/io_uring_loop.cpp:503-529 | after a completion TLS stands where the completion says: an upgrade starts a handshake, only the TLS engine finishes it, and nothing takes it away |
| `Connection.EstablishedStays` | src/io/io_uring_loop.cpp:315-334 | established TLS stays while no upgrade is asked for, and all that is then queued is encrypted |
| `Connection.EndsIff` | src/io/io_uring_loop.cpp:289-372 | an open connection is closing or gone after a completion if and only if a write failed, a read ended or failed without being cancelled, feeding TLS threw, or session code closed, wants to close or cannot encrypt |
| `EventLoop.RunIsSafe` | src/io/io_uring_loop.cpp:179-246 | every run, with any completion order, keeps every connection's invariants and the connection limit |
| `EventLoop.RemovedStaysRemoved` | src/io/io_uring_loop.cpp:474-501 | no completion ever arrives for a removed id, in the rest of any run |
| `EventLoop.RunProgresses` | src/io/io_uring_loop.cpp:289-412 | without cancelled reads and with TLS flags cleared, every live connection always has an operation outstanding, and exactly one read unless closing |
| `EventLoop.ClosingDrains` | src/io/io_uring_loop.cpp:474-501 | a closing connection is gone after at most three of its completions |
| `EventLoop.ServerRun` | src/io/io_uring_loop.cpp:248-501 | the whole statement for a server that starts empty: exact inflight, one write in the kernel which is the queue's head, popped chunks plus queue equal to the submitted chunks |
| `EventLoop.AcceptAdmits` | src/io/io_uring_loop.cpp:248-287 | below the limit an accepted socket becomes a live connection that has queued exactly its greeting and has one read armed; otherwise nothing changes |
| `EventLoop.RunHandsOver` | src/io/io_uring_loop.cpp:438-472 | in every run the chunks a connection queues are those that its greeting, its sealed writes and its TLS engine hand over, in order |
| `EventLoop.NoPlaintext` | src/io/io_uring_loop.cpp:438-472 | from a point where TLS is established on, every chunk queued in the rest of the run is what the TLS engine made in one of its events |
| `EventLoop.EndedIff` | src/io/io_uring_loop.cpp:289-412 | an open connection is closing or gone after a run if and only if an event of the run ends it |
| `Sessions.CallClearsFlag` | src/io/io_uring_loop.cpp:309-333 | no call of on_data on an SMTP, submission or IMAP session leaves the TLS flag set |
| `Sessions.CallsClearFlag` | src/io/io_uring_loop.cpp:309-347 | nor does a read that brings several calls, in the session or in what the loop is told, whatever the calls do on their way |
| `Sessions.ServerProgresses` | src/io/io_uring_loop.cpp:179-412 | in every run from the empty server without cancelled reads, each read handed to the session that its connection has had since accept, each live connection has an operation outstanding, and exactly one read unless closing |
| `EventLoop.IoUringLoop.OnAccept` | src/io/io_uring_loop.cpp:248-287 | the tables after an accept represent the next state of the step system |
| `EventLoop.IoUringLoop.OnRead` | src/io/io_uring_loop.cpp:289-360 | the handler on the tables does the step on its own id and touches no other |
| `EventLoop.IoUringLoop.OnWrite` | src/io/io_uring_loop.cpp:362-412 | likewise for write completions |
| `EventLoop.IoUringLoop.FlushWrite` | src/io/io_uring_loop.cpp:414-436 | likewise for sending the queue's head |
| `EventLoop.IoUringLoop.SubmitWrite` | src/io/io_uring_loop.cpp:438-472 | likewise for queueing a chunk, encrypted when TLS is up |
| `EventLoop.IoUringLoop.SubmitClose` | src/io/io_uring_loop.cpp:474-501 | likewise for deferred teardown |
| `EventLoop.IoUringLoop.UpgradeTls` | src/io/io_uring_loop.cpp:503-529 | likewise for the TLS upgrade |
| `EventLoop.IoUringLoop.Dispatch` | src/io/io_uring_loop.cpp:179-246 | one completion of the run loop takes the tables to the next state of the step system |
| `UserData.PackingInverts` | include/io/io_uring_loop.hpp:23-51 | packing is undone by unpacking if and only if the id fits in 60 bits, and never looks like a DNS tag |
| `UserData.DnsPackingInverts` | include/dns/resolver.hpp:24-61 | DNS tags are recognised and give back operation and transaction id |
| `UserData.TagsAreDistinct` | include/io/io_uring_loop.hpp:23-51 | different operations or ids never share a tag, nor do connection and DNS tags |
| `Cidr.MaskIsBitwise` | src/auth/spf/checker.cpp:478-538 | equality of masked words of any width is agreement bit by bit |
| `Cidr.Matches4IsBitwise` | src/auth/spf/checker.cpp:478-507 | the IPv4 test accepts if and only if the prefix is at most 32 and that many leading bits agree; a match holds at every shorter prefix |
| `Cidr.Matches6IsBitwise` | src/auth/spf/checker.cpp:509-538 | the IPv6 test accepts if and only if the first `prefix` bits agree |
| `Cidr.ShorterPrefix6` | src/auth/spf/checker.cpp:509-538 | an IPv6 match holds at every shorter prefix |
| `SpfRecord.ParseInvertsText` | src/auth/spf/checker.cpp:162-231 | parsing the text of a record gives back its mechanisms, with qualifier, type and value, in order, and its modifiers |
| `SpfRecord.ParseRecord` | src/auth/spf/checker.cpp:162-231 | the token loop yields the record of the token-by-token definition, redirect and mechanisms in order |
| `Spf.FetchAgrees` | src/auth/spf/checker.cpp:72-100 | fetching in continuation-passing style is the direct evaluation followed by the callback |
| `Spf.HandleAgrees` | src/auth/spf/checker.cpp:102-160 | the same for a TXT answer; the depth guard on redirects never fires |
| `Spf.MechanismsAgree` | src/auth/spf/checker.cpp:253-425 | the same for the mechanism list: left to right, first match |
| `Spf.IncludedAgrees` | src/auth/spf/checker.cpp:335-380 | the callback of an include continues as the direct evaluator does |
| `Spf.CheckCallsBackOnce` | src/auth/spf/checker.cpp:45-160 | for every DNS, cycles included, a check ends with exactly one callback carrying the direct evaluator's result, or with a fault; no chain makes more than ten lookups |
| `SpfExact.CallsBackIffReadable` | src/auth/spf/checker.cpp:45-160 | a check makes exactly one callback if and only if no mechanism that it reaches has an unreadable prefix length, and none otherwise |
| `SpfExact.FetchBreaks` | src/auth/spf/checker.cpp:72-160 | a fetch, with its redirects and includes, breaks off if and only if it reaches such a mechanism |
| `SpfExact.SaneDnsAlwaysCallsBack` | src/auth/spf/checker.cpp:45-160 | with readable prefix lengths in every record there is always exactly one callback |
| `SpfExact.ListBreaks` | src/auth/spf/checker.cpp:260-425 | a mechanism list breaks off if and only if a mechanism reached in it, or in a record it includes, is unreadable |
| `SpfExact.UnreadableBlockThrows` | src/auth/spf/checker.cpp:478-507 | a check whose record starts with an ip4 block without a readable prefix length throws after one lookup, for every client |
| `SpfExact.BareSlashFaults` | src/auth/spf/checker.cpp:556-564 | so does a check that reads "v=spf1 +ip4:192.0.2.1/" |
| `Spf.NothingAfterAll` | src/auth/spf/checker.cpp:260-300 | what follows `all` is never looked at |
| `SpfMeaning.AllAnswers` | src/auth/spf/checker.cpp:233-280 | "v=spf1 -all" calls back Fail for every client, "~all" SoftFail, "?all" Neutral and "+all" Pass |
| `SpfMeaning.PublishedHit` | src/auth/spf/checker.cpp:45-425 | a check whose record starts with a mechanism that names the client calls back what its qualifier means: an ip4 or ip6 block whose leading bits agree with the client, an address of the domain that does, or an include that passes |
| `SpfMeaning.PublishedMiss` | src/auth/spf/checker.cpp:282-302 | a readable block that does not name the client makes no difference: lookups and callback are those of the record without it |
| `SpfMeaning.CheckEvaluates` | src/auth/spf/checker.cpp:72-160 | the record read is that of the prefixed name, or of the bare domain if there is no such name; a redirect is followed if and only if the record has no mechanisms |
| `SpfMeaning.HitAnswers` | src/auth/spf/checker.cpp:260-380 | the same for every list: the first mechanism that names the client decides by its qualifier |
| `SpfMeaning.MissGoesOn` | src/auth/spf/checker.cpp:282-302 | and one that does not leaves the decision to the rest |
| `SpfMeaning.AddressMissGoesOn` | src/auth/spf/checker.cpp:306-328 | likewise for an address lookup, which counts |
| `SpfMeaning.IncludeMeans` | src/auth/spf/checker.cpp:335-380 | what the result of an included domain means: Pass matches, Fail, SoftFail and Neutral go on, TempError stays, anything else is PermError |
| `SpfMeaning.ErrorsAndEnd` | src/auth/spf/checker.cpp:253-394 | an exhausted list is Neutral; ptr and "exits" are passed over; unknown mechanisms, includes without a domain and lookups past the tenth are PermError |
| `SpfMeaning.AnswersMean` | src/auth/spf/checker.cpp:102-141 | failed lookups are TempError, missing names and answers without an SPF text None, and several SPF texts PermError |
| `SpfMeaning.FirstAnswerDecides` | src/auth/spf/checker.cpp:72-141 | the same for a whole check, with the bare domain asked after a name that does not exist |
| `SpfMeaning.DomainBack` | src/auth/spf/checker.cpp:540-554 | the domain of a sender is what follows its last @, and the greeting stands in for the null sender |
| `SpfRecord.BlockBack` | src/auth/spf/checker.cpp:556-564 | the base and the prefix length of a block are what stands before and behind its slash; without one the default is meant |
| `SpfExact.FlatChecksAreShort` | src/auth/spf/checker.cpp:72-160 | where no record holds an include, a whole check makes at most ten lookups |
| `SpfExact.IncludesEscapeTheLimit` | src/auth/spf/checker.cpp:341-350 | a check that reads a record of m includes of an empty record makes 1 + m lookups and calls back, for every m |
| `TomlDatum.TabFind` | src/utils/config/tomlc17.c:383-400 | the first entry with the key, or none |
| `TomlDatum.Emplace` | src/utils/config/tomlc17.c:402-452 | keeps keys unique and fails only for a new key in a full table |
| `TomlDatum.DatumEquiv` | src/utils/config/tomlc17.c:719-790 | the loops decide the specified comparison |
| `TomlDatum.EquivIsEquality` | src/utils/config/tomlc17.c:719-790 | on well-formed trees the comparison holds if and only if the denoted values are equal, tables being unordered maps |
| `TomlDatum.EquivIsEquivalence` | src/utils/config/tomlc17.c:719-790 | it is reflexive, symmetric and transitive |
| `TomlDatum.SameKeys` | src/utils/config/tomlc17.c:719-790 | equal sizes and a one-way key match give equal key sets |
| `TomlDatum.DatumCopy` | src/utils/config/tomlc17.c:596-655 | the loops compute the specified copy |
| `TomlDatum.CopyIsIdentity` | src/utils/config/tomlc17.c:596-655 | a copy of a well-formed tree never fails and equals it |
| `TomlDatum.DatumMerge` | src/utils/config/tomlc17.c:657-717 | the loops compute the specified merge |
| `TomlDatum.MergeLaw` | src/utils/config/tomlc17.c:657-717 | a merge denotes the key-by-key merge of what the trees denote, and fails if and only if that exceeds a size limit |
| `TomlDatum.TomlMergeLaw` | src/utils/config/tomlc17.c:811-853 | merging documents succeeds if and only if the merged document fits, and then denotes it |
| `TomlDatum.DocumentedIffNoClash` | include/utils/config/tomlc17.h:228-240 | the code's merge of two values is the documented one if and only if nowhere a non-empty array of tables meets an array that is not one |
| `TomlDatum.TomlMergeAsDocumented` | include/utils/config/tomlc17.h:228-240 | the same for whole documents |
| `TomlDatum.ClashingPair` | src/utils/config/tomlc17.c:657-717 | a = [{}] merged with a = [1] gives [1], where the header promises both elements |
| `TomlString.Utf8ToUcs` | src/utils/config/tomlc17.c:3043-3147 | the loops decode as specified |
| `TomlString.DecodeInvertsEncode` | src/utils/config/tomlc17.c:3043-3237 | decoding inverts encoding for every code up to 0x1FFFFF, whatever follows |
| `TomlString.EncodeInvertsShortest` | src/utils/config/tomlc17.c:3043-3237 | the other way round holds if and only if the form is the shortest |
| `TomlString.OverlongIsRead` | src/utils/config/tomlc17.c:3043-3147 | the two bytes C1 81 are read as the letter A |
| `TomlString.TranslateInPlace` | src/utils/config/tomlc17.c:1832-1948 | for every reader whose items do not grow, reading and writing one buffer yields the pure translation, and the write cursor never passes the read cursor |
| `TomlString.ParseNorm` | src/utils/config/tomlc17.c:1805-1948 | literals and tokens without an escape are taken as they are, others are unescaped in place; the result is never longer than the token |
| `TomlString.NormalisedIsUnescaped` | src/utils/config/tomlc17.c:1805-1948 | of a token without NUL it makes what the whole token means |
| `TomlString.OneShrinks` | src/utils/config/tomlc17.c:1832-1948 | no escape stands for more bytes than it takes, which is what makes unescaping in place safe |
| `TomlString.UnescapeInvertsQuote` | src/utils/config/tomlc17.c:1832-1948 | unescaping undoes the quoting of every text, with each letter escape and hexadecimal escapes for the other control bytes |
| `TomlString.ContinuationVanishes` | src/utils/config/tomlc17.c:1920-1948 | a backslash at a line's end vanishes with the line end and the white space up to the next character |
| `TomlString.UnicodeEscape` | src/utils/config/tomlc17.c:1870-1920 | a four- or eight-digit escape stands for the UTF-8 form of its code; surrogates and codes beyond 0x1FFFFF are refused |
| `DnsName.DecodeName` | src/dns/message.cpp:181-255 | ends on every input and yields the dot-join of the labels reached by following pointers |
| `DnsName.LargerBudget` | src/dns/message.cpp:181-185 | a name that was read is read the same under every larger depth limit |
| `DnsName.ReadIffChainEnds` | src/dns/message.cpp:181-255 | a name is read if and only if its pointer chain reaches a root label within the limit over well-formed stretches |
| `DnsName.CyclesAreRefused` | src/dns/message.cpp:181-255 | a pointer chain that runs into a cycle is refused under every limit |
| `DnsName.NameFits` | src/dns/message.cpp:181-255 | a decoded name has at most eleven times the message's bytes, and its end lies inside the message |
| `DnsName.EncodeName` | src/dns/message.cpp:34-51 | the getline loop writes the length-prefixed labels, empty ones dropped and long ones cut |
| `DnsName.StretchOfWire` | src/dns/message.cpp:34-51 | written labels are read back wherever they stand in a message |
| `DnsName.CarriedUnchanged` | src/dns/message.cpp:34-51 | a name survives the trip unchanged if and only if it is empty or each label has 1 to 63 bytes |
| `DnsMessage.EncodeQuery` | src/dns/message.cpp:10-27 | writes the wire form of a query |
| `DnsMessage.DecodeMessage` | src/dns/message.cpp:60-114 | three sections read by three loops are one run of records cut at the header's counts |
| `DnsMessage.DecodeData` | src/dns/message.cpp:257-358 | record data by type, with reads outside the message made visible |
| `DnsMessage.DecodeInvertsQuery` | src/dns/message.cpp:10-151 | decoding a query gives its id, recursion desired, no records and one question of its type with the carried name |
| `DnsRoundTrip.DecodeInvertsWrite` | src/dns/message.cpp:60-358 | decoding the uncompressed wire form of any message gives back all its fields, flags, questions and records of the six known types, section by section |
| `DnsRoundTrip.RecordBack` | src/dns/message.cpp:153-179 | a written record is read back wherever it stands |
| `DnsRoundTrip.DataBack` | src/dns/message.cpp:257-358 | so is its data, by type |
| `DnsMessage.DecodedFits` | src/dns/message.cpp:60-179 | 12 bytes, 5 per question and 11 per record fit in every message that decodes |
| `DnsMessage.DecodeReadsInside` | src/dns/message.cpp:257-358 | with record data inside the message nothing is read outside it |
| `DnsMessage.RecordFaults` | src/dns/message.cpp:291-326 | reading a record leaves the message if and only if it is MX with its preference beyond the end or TXT whose strings lead out |
| `DnsMessage.DecodeFaultsIff` | src/dns/message.cpp:60-114 | decoding reads outside the message if and only if such a record is reached before anything is refused |
| `DnsMessage.DanglingTextFaults` | src/dns/message.cpp:308-326 | TXT data announced behind the end is read there |
| `DnsResolver.EveryRun` | src/dns/resolver.cpp:48-276 | in every run a callback is told at most once and until then held by exactly one pending id; queries are sent at most twice, under their own id and name; every status fits what it was told for: OK a clean reply with the id of the callback's own query, NXDomain one with rcode 3, ServFail a completed send, a failed receive or a refusal, ParseError a lost buffer or an unreadable datagram, Timeout a cancelled receive after two sends |
| `DnsResolver.RunKeeps` | src/dns/resolver.cpp:153-276 | every event keeps the ownership of callbacks and the record of what was sent and told |
| `DnsResolver.SendEndsQuery` | src/dns/resolver.cpp:153-165 | a send completion of either sign tells ServFail and removes the entry |
| `DnsResolver.StrayReplyLosesBuffer` | src/dns/resolver.cpp:228-234 | a foreign id leaves the query pending without its receive buffer |
| `DnsResolver.OkIff` | src/dns/resolver.cpp:167-262 | an event tells OK for a query if and only if it is a datagram for its pending id, the receive buffer is there and the reply answers the query |
| `DnsResolver.NXDomainIff` | src/dns/resolver.cpp:237-242 | it tells NXDomain if and only if it is a decoded reply with this id and rcode 3, the receive buffer being there |
| `DnsResolver.ServFailIff` | src/dns/resolver.cpp:153-256 | ServFail if and only if it is a send completion, another receive error, or such a reply with another rcode or cut short |
| `DnsResolver.TimeoutIff` | src/dns/resolver.cpp:179-204 | Timeout if and only if the receive is cancelled and the retries are used up |
| `DnsResolver.ParseErrorIff` | src/dns/resolver.cpp:212-227 | ParseError if and only if the buffer is gone or the datagram does not decode |
| `DnsResolver.SilentIff` | src/dns/resolver.cpp:179-234 | and nothing if and only if the reply has a foreign id or the query is tried again |
| `DnsResolver.LostBufferStaysLost` | src/dns/resolver.cpp:212-234 | in every run, as long as the query stays pending under this id, no later event tells its callback OK |
| `DnsResolver.RetryRestoresBuffer` | src/dns/resolver.cpp:179-194 | a retry moves the callback to a new id with a buffer, under which a good reply is told OK |
| `DnsResolver.Resolver.Resolve` | src/dns/resolver.cpp:48-62 | the method on the maps does the step |
| `DnsResolver.Resolver.OnSend` | src/dns/resolver.cpp:153-165 | likewise, with the callback's own queries before the erase |
| `DnsResolver.Resolver.OnRecv` | src/dns/resolver.cpp:167-262 | likewise, with retry, re-arming and the statuses |
| `DnsResolver.Resolver.AllocTxid` | src/dns/resolver.cpp:268-276 | the first drawn id that is not pending |
| `SmtpFraming.DataEndsAtFirstTerm` | src/smtp/smtp_session.cpp:24-52 | the mail handed over is exactly what stands before the first CRLF.CRLF since data began, whatever came in earlier chunks; the rest is read afresh |
| `SmtpFraming.DataCollects` | src/smtp/smtp_session.cpp:24-52 | until then data is kept and the window is its last five bytes |
| `SmtpFraming.FramedKept` | src/smtp/smtp_session.cpp:24-79 | in every state the window is the end of the data buffer |
| `SmtpFraming.AnyChunking` | src/smtp/smtp_session.cpp:24-79 | without STARTTLS the cut into chunks does not matter |
| `SmtpFraming.BytesMakeWhole` | src/smtp/smtp_session.cpp:24-79 | the byte loop reads a stream mail by mail up to the first CRLF.CRLF and line by line up to LF, throwing overlong lines away piece by piece |
| `SmtpFraming.ChunksMakeWhole` | src/smtp/smtp_session.cpp:24-79 | and without STARTTLS so does a whole connection, whatever its chunks |
| `SmtpFraming.BrokenChunkDropsRest` | src/smtp/smtp_session.cpp:61-68 | bytes behind a STARTTLS line in the same chunk are dropped |
| `SmtpSession.EveryConnection` | src/smtp/smtp_session.cpp:24-294 | deliver runs only with a sender and 1 to 100 recipients, no envelope is kept outside a transaction, and no chunk leaves the TLS flag set |
| `SmtpSession.DialogueDelivers` | src/smtp/smtp_session.cpp:150-248 | a greeted session that reads MAIL, up to 100 RCPT lines, DATA and a body, as bytes, delivers exactly this sender, the accepted recipients in order and no others, and this body, and answers each command with its code |
| `SmtpSession.Forgets` | src/smtp/smtp_session.cpp:129-294 | EHLO, HELO, RSET and an accepted STARTTLS forget what was said before |
| `SmtpSession.OutOfOrderIff` | src/smtp/smtp_session.cpp:150-294 | 503 is answered exactly to commands out of order, and they change nothing |
| `SmtpSession.BodyDelivered` | src/smtp/smtp_session.cpp:36-51 | the delivered body is the bytes up to the first CRLF.CRLF since data began or since the last failed delivery |
| `SmtpSession.NothingDelivered` | src/smtp/smtp_session.cpp:26-41 | without a terminator nothing is delivered |
| `SmtpSession.DeliveredFromStream` | src/smtp/smtp_session.cpp:24-79 | without STARTTLS all that a connection delivers is a function of its byte stream |
| `SmtpSession.Session.OnData` | src/smtp/smtp_session.cpp:24-79 | the byte loop on the fields is the specified reader |
| `SmtpSession.Session.ProcessLine` | src/smtp/smtp_session.cpp:81-127 | a command line does the specified step |
| `Sasl.CredentialsBack` | src/auth/sasl/sasl.cpp:85-110 | user and password of a PLAIN response are what stands between the first two NULs and behind the second, and neither may be empty |
| `SmtpText.AddressBack` | src/smtp/submission_server.cpp:1013-1027 | an address in angle brackets is read as such, whatever parameters follow |
| `Sasl.BeginKeeps` | src/auth/sasl/sasl.cpp:13-40 | starting an exchange counts the attempt and authenticates only a user the store accepts |
| `Sasl.CaseMatters` | src/auth/sasl/sasl.cpp:24-39 | the answer does not depend on the case of the mechanism's name if and only if the name is upper case already or names neither mechanism |
| `Sasl.LowerCaseIsRefused` | src/auth/sasl/sasl.cpp:24-39 | "AUTH plain" is answered 504 |
| `Sasl.RespondKeeps` | src/auth/sasl/sasl.cpp:42-159 | a response authenticates if and only if it is answered 235, after an accepted check; cancelling starts the count anew |
| `Sasl.LoginExchange` | src/auth/sasl/sasl.cpp:112-159 | AUTH LOGIN and two responses are answered 334, 334 and then 235 if and only if the store accepts the first as user and the second as password, who is then the recorded user; otherwise 535 |
| `Sasl.PlainExchange` | src/auth/sasl/sasl.cpp:13-110 | AUTH PLAIN asks the store about the user and the password in its response, and is answered accordingly |
| `Sasl.PlainChallenge` | src/auth/sasl/sasl.cpp:13-110 | without an initial response it is asked for first |
| `Sasl.EmptyResponsesFail` | src/auth/sasl/sasl.cpp:85-146 | a response that decodes to nothing fails without a check |
| `Sasl.CancelStartsAnew` | src/auth/sasl/sasl.cpp:42-48 | "*" is answered 501 and gives back all attempts |
| `Sasl.FourthAttemptRefused` | src/auth/sasl/sasl.cpp:13-22 | an attempt after three is refused without a check |
| `Sasl.SASLSession.Begin` | src/auth/sasl/sasl.cpp:13-40 | the method on the fields does the step |
| `Sasl.SASLSession.Respond` | src/auth/sasl/sasl.cpp:42-64 | likewise |
| `Submission.EveryRun` | src/smtp/submission_server.cpp:196-478 | past the gate the store accepted the recorded user on this connection under TLS; an exchange in progress means Greeted and not authenticated; no envelope is kept outside a transaction; every delivery belongs to an accepted user; at most three checks without a cancellation between them |
| `Submission.LoginOverConnection` | src/smtp/submission_server.cpp:196-339 | AUTH LOGIN and two lines on a greeted connection under TLS pass the gate if and only if the store accepts the first as user with the second as password, and the user is recorded |
| `Submission.DialogueDelivers` | src/smtp/submission_server.cpp:348-460 | an authenticated session that reads MAIL, up to 100 RCPT lines, DATA and a body, as bytes, delivers for its user exactly this sender, the accepted recipients in order and no others, and this body |
| `Submission.Forgets` | src/smtp/submission_server.cpp:264-467 | EHLO, HELO, RSET and an accepted STARTTLS forget the envelope, and never the authentication |
| `Submission.OutOfOrderIff` | src/smtp/submission_server.cpp:289-460 | commands out of order are refused with 503, or 530 before authentication, change nothing, and are the only ones refused so |
| `Submission.TlsStays` | src/smtp/submission_server.cpp:289-307 | established TLS stays for the rest of the run |
| `Submission.DownIffShortMail` | src/smtp/submission_server.cpp:348-360 | in every run the session breaks off if and only if an authenticated one gets a MAIL command with an argument under five bytes |
| `Submission.ShortMailRun` | src/smtp/submission_server.cpp:348-360 | STARTTLS, the handshake, an accepted AUTH PLAIN and a bare MAIL break the session off |
| `Submission.DeliveryLocksOut` | src/smtp/submission_server.cpp:58-62 | after a delivery every MAIL is answered 530 |
| `Submission.ReentersIffRset` | src/smtp/submission_server.cpp:462-467 | an authenticated user before the gate passes it again in a run if and only if the run has an RSET line |
| `Submission.LineKeeps` | src/smtp/submission_server.cpp:196-262 | every command keeps the gate |
| `Submission.DeliverKeeps` | src/smtp/submission_server.cpp:51-66 | so does every finished mail |
| `Submission.SubmissionServer.OnData` | src/smtp/submission_server.cpp:39-95 | the byte loop on the fields is the specified reader |
| `Submission.SubmissionServer.CmdAuth` | src/smtp/submission_server.cpp:309-339 | AUTH does the specified step on the session and its SASL object |
| `Submission.SubmissionServer.CmdMail` | src/smtp/submission_server.cpp:348-381 | MAIL needs an authenticated state, and throws on a short argument |
| `Submission.SubmissionServer.CmdRset` | src/smtp/submission_server.cpp:462-467 | RSET returns to Authenticated or Greeted |
| `Submission.SubmissionServer.CmdStarttls` | src/smtp/submission_server.cpp:289-307 | STARTTLS is refused once TLS is up |
| `Relay.SendText` | src/smtp/submission_server.cpp:945-960 | the sending loop writes the stuffed lines and the final dot |
| `Relay.StreamEndsOnce` | src/smtp/submission_server.cpp:945-960 | the stream's first CRLF.CRLF is its own end for every non-empty text, and there is none for the empty one |
| `Relay.ReaderStopsAtEnd` | src/smtp/smtp_session.cpp:26-41 | a server's data reader takes the whole stream as one mail and stops exactly at its end |
| `Relay.ReceiverRecoversLines` | src/smtp/submission_server.cpp:945-959 | dropping one leading dot from each received line gives back the text's lines |
| `ImapLiteral.Session.OnData` | src/imap/session.cpp:39-98 | bulk draining equals the byte-at-a-time reader |
| `ImapLiteral.ParseInvertsText` | src/imap/session.cpp:348-428 | mailbox, plain or quoted, optional flags and announced size of an APPEND are read back, a date-time is skipped, and sizes beyond size_t are refused |
| `ImapLiteral.ChunksJoin` | src/imap/session.cpp:39-98 | outside STARTTLS chunk boundaries do not matter |
| `ImapLiteral.AlwaysAccounted` | src/imap/session.cpp:418-425 | buffered plus awaited bytes always equal the announced size |
| `ImapLiteral.LiteralCompletes` | src/imap/session.cpp:39-86 | APPEND completes exactly when the announced bytes have arrived, with those and no others |
| `ImapLiteral.LiteralCollects` | src/imap/session.cpp:39-54 | and not before |
| `ImapLiteral.EmptyLiteralIsIgnored` | src/imap/session.cpp:43-54 | an announced size of zero changes nothing in the rest of any input |
| `ImapLiteral.FlagCleared` | src/imap/session.cpp:64-70 | no chunk leaves the TLS flag set |
| `ImapMailbox.ClientFollowsExpunge` | src/imap/session.cpp:963-1000 | a client that applies the responses one by one has exactly the messages that are not deleted, in order |
| `ImapMailbox.ClientFollowsRun` | src/imap/session.cpp:963-1229 | over every run a client that applies the untagged responses has the server's list if and only if no new mail was taken in since the last SELECT or CLOSE |
| `ImapMailbox.KeptIsTheRest` | src/imap/session.cpp:963-1000 | those are the messages that are not deleted, each as often as before |
| `ImapMailbox.ExpungeByFlags` | src/imap/session.cpp:963-1000 | a message is kept if and only if the eight bytes "\Deleted" stand nowhere in its flags, and the unlinked files are exactly those of the others, in order |
| `ImapMailbox.Mailbox.Expunge` | src/imap/session.cpp:963-1000 | the loop sends these responses, unlinks the deleted files and renumbers |
| `ImapMailbox.Mailbox.Close` | src/imap/session.cpp:1007-1028 | the same files are unlinked without responses, and the list is empty |
| `ImapMailbox.Mailbox.IncorporateNew` | src/imap/session.cpp:1184-1229 | new messages are appended under the next numbers |
| `ImapMailbox.Mailbox.Select` | src/imap/session.cpp:1095-1162 | the sorted files, numbered from 1 |
| `ImapMailbox.StoreChangesOne` | src/imap/session.cpp:884-908 | STORE n changes message n and no other |
| `ImapMailbox.AlwaysNumbered` | src/imap/session.cpp:963-1229 | in every run a message's number is its position |
| `Dkim.CanonicalizeRelaxed` | src/auth/dkim/verifier.cpp:365-413 | holding back empty lines equals dropping them at the end of the canonical lines |
| `Dkim.CanonicalizeSimple` | src/auth/dkim/verifier.cpp:414-445 | the two loops compute the specified form |
| `Dkim.SqueezeIsTight` | src/auth/dkim/verifier.cpp:379-394 | a reduced line has no tab, no two spaces in a row and none at its end |
| `Dkim.SqueezeKeepsSolid` | src/auth/dkim/verifier.cpp:379-394 | and the same other bytes in the same order |
| `Dkim.RelaxedTwice` | src/auth/dkim/verifier.cpp:365-413 | relaxed canonicalisation is idempotent on every body |
| `Dkim.RelaxedEnds` | src/auth/dkim/verifier.cpp:365-413 | it ends in CRLF |
| `Dkim.RelaxedOfLines` | src/auth/dkim/verifier.cpp:365-413 | the relaxed form of lines ended by CRLF is the lines with their white space reduced, up to the last that is not empty |
| `Dkim.RelaxedIgnoresEmptyLines` | src/auth/dkim/verifier.cpp:365-413 | appended empty lines make no difference if and only if the body is empty or ends in LF or white space |
| `Dkim.SimpleTwice` | src/auth/dkim/signer.cpp:111-142 | simple canonicalisation is idempotent on every body and ends in CRLF |
| `Dkim.SimpleIgnoresEmptyLines` | src/auth/dkim/verifier.cpp:414-445 | appended empty lines make no difference to any body |
| `Dkim.NormalKeepsText` | src/auth/dkim/verifier.cpp:417-429 | line ends gain CRs and nothing else changes |
| `Dkim.NormalIsPiecewise` | src/auth/dkim/verifier.cpp:417-429 | each LF without a CR before it gains exactly one, and every other byte stays as it is |
| `Dkim.StripTakesCrlfs` | src/auth/dkim/verifier.cpp:431-440 | stripping takes away whole CRLFs at the end, all of them and nothing else |
| `Dkim.CanonicalizeBody` | src/auth/dkim/verifier.cpp:364-446 | every method name but "relaxed" means simple, and the result ends in CRLF |

## Left out

- Sockets, liburing, OpenSSL, SQLite, the filesystem, clocks, password hashing, base64 and logging: foreign calls, which appear as arbitrary functions or events.
- Allocation failures and the overflow of 32- and 64-bit counters (connection ids, inflight, sequence numbers, SASL attempts).
- An upgrade without a TLS context acts on the connection like a close, which session actions already cover; `Connection.UpgradeTls` models a configured context.
- Byte-level completeness of writes: a short send pops the whole chunk, and closing discards the queue.
- A session object destroyed by a close while its own on_data is running.
- EventLoop.IoUringLoop.OnRead: the periodic timer and the DNS completions that share the loop are not part of it.
- DMARC evaluation, DKIM headers, signatures and keys: the code departs from the documented form there.
- `check_mx_record`, which the evaluator never calls, and the texts of SPF explanations.
- SpfExact.SaneDnsAlwaysCallsBack: a sufficient condition on the records alone; the exact one is `CallsBackIffReadable`.
- DnsMessage.DecodeReadsInside: a sufficient condition on record lengths alone; the exact one is `DecodeFaultsIff`.
- The TOML scanner, numbers, dates and nesting limits. An escape without its hexadecimal digits, which the scanner refuses, is an error here.
- TomlDatum.DatumMerge: works on tree values; sharing of memory between source and destination, and the source locations kept for messages, are not modelled.
- DnsResolver.Resolver.OnRecv: erasing a receive context that is not there does nothing here; map iterators that a nested resolve might invalidate are not modelled; a reply whose data leaves the message may decode to anything.
- Reply texts of SMTP and IMAP, aliases and recipient checks (an arbitrary answer), mailbox delivery, Cc and Bcc handling, and outbound MX selection.
- ImapLiteral.Session.OnData: commands other than APPEND and STARTTLS are an arbitrary function of the session; a literal size that exhausts memory is not modelled.
- IMAP FETCH, SEARCH, LIST and STATUS, and how STORE computes the new flags.
- Relaxed canonicalisation is not claimed to agree with RFC 6376 on the empty body or on lines that do not end in CRLF.
