# A Dafny model of webapp-wago

webapp-wago is a Go service in front of WhatsApp: an HTTP API whose middleware normalises phone numbers, event
producers (RabbitMQ, WebSocket), and an MCP server that buffers inbound events for polling. This project models
the parts of it that hold state or rewrite text, and proves what they guarantee over all inputs, all runs, all
interleavings and all map iteration orders.

`dafny verify dfyconfig.toml` checks everything.

| file | models |
|---|---|
| `Text.dfy` | the functions of Go's `strings` package that number handling uses |
| `Jid.dfy` | `CreateJID`, the country rewrites, and the text `ParseJID` hands on |
| `NumberCheck.dfy` | `PrepareNumbersForWhatsAppCheck`, and its agreement with `CreateJID` |
| `JidValidation.dfy` | the request-body middleware, from decoded body to forwarded body |
| `NumberLookup.dfy` | the middleware together with the lookups of `CheckUser` and of the send services behind it |
| `EventBuffer.dfy` | the bounded event buffer: a class, a ledger of every pushed event, and whole runs |
| `AdminDsn.dfy` | the key=value DSN rewriter |
| `LoggerCache.dfy` | the double-checked logger cache, as a method and as a protocol of concurrent calls |
| `RetryPublisher.dfy` | publish with reconnect and retry, against any broker |
| `WsRegistry.dfy` | the WebSocket client registry over connects and disconnects |
| `Backoff.dfy` | the WebSocket client's reconnect backoff, in int64 |
| `JsonSearch.dfy` | `GetObject`'s search through nested objects |
| `JsonValue.dfy`, `MapOrder.dfy`, `Wrappers.dfy` | decoded JSON, map iteration orders, `Option` and `Result` |

How the code is represented:

- In number handling a `char` is one byte of a Go string, because `CreateJID` compares byte lengths. In the DSN
  rewriter it is a rune, because `strings.Fields` splits at Unicode spaces.
- A Go `range` over a map is a loop over an arbitrary duplicate-free listing of the keys (`MapOrder.AnyOrder`), so
  what is proved holds for every order.
- A method under a mutex is one step. The logger cache, whose point is what happens between two locks, is also
  modelled lock by lock, with Go's rule that a waiting writer keeps new readers out.
- The broker is a set of functions from everything that went over the wire so far to its next answer. A failed dial may
  hand back a connection along with its error. A publish on the nil channel that a failed open leaves behind is the
  outcome `Crash`.
- Two decoded-JSON bodies are the same iff their trees are; encoding and decoding are taken to be lossless on them.

## What the code does not do

Some claims one would make from names and comments are false of the code. The model keeps the code as it is;
each is stated with the exact condition.

- `publishWithRetry` can return nil although nothing was published: `err` is overwritten when the channel is
  reopened after the last attempt (`RetryPublisher.PublishResult`, `RetryPublisher.NilWithoutPublish`).
- A live WebSocket connection need not be in the per-instance map: a stale close deletes by instance id
  (`WsRegistry.LostClients`, `WsRegistry.StaleCloseExample`).
- `GetObject` can miss a non-empty binding, depending on map order, but only if some reachable object binds the key
  to ""; it can return "" iff every path to a non-empty binding passes such an object (`JsonSearch.MissIffAllHidden`,
  `JsonSearch.EmptyBindingHides`).
- The backoff follows its closed form only for maxima up to half the largest int64; above that it overflows within 64
  failed dials in a row (`Backoff.ClosedFormHoldsIff`, `Backoff.OverflowExample`).
- The admin DSN of a key=value DSN can start like a URL (`AdminDsn.AdminDsnMayTurnIntoUrl`).
- Normalising numbers in the middleware is not neutral for the lookups behind it. The middleware takes a missing
  `formatJid` for true (pkg/middleware/jid_validation_middleware.go:350-356), `CheckUser` takes it for false
  (pkg/user/service/user_service.go:202-206), and the send services look up without formatting first
  (pkg/sendMessage/service/send_service.go:524-528). So on a body without the flag the text looked up is the JID, not
  the number that was sent, and a number that becomes a group JID is not checked before sending
  (`NumberLookup.CheckUserLookups`, `NumberLookup.DefaultCheckLooksUpTheJid`, `NumberLookup.SendLookupsMeaning`).
- `ValidateJIDFields` refuses every list, so a route that uses it for a list field (pkg/routes/routes.go:211,
  "participants") refuses every body that has that list (`JidValidation.FieldsAcceptedMeaning`).
- The comment at pkg/utils/utils.go:88 says 18 or more digits make a group; the code counts bytes of the cleaned text,
  and what is left of them in the result may be any text of digits and hyphens, also none
  (`Jid.CreateJIDImage`).

## Model

| member | source | states |
|---|---|---|
| `Jid.CreateJIDMeaning` | pkg/utils/utils.go:60-123 | For input that is not a JID already, with every character set and suffix written out: cleaned text of 18 or more bytes becomes a group JID of its digits and hyphens, shorter text without a digit is refused, the rest becomes "+", canonical digits, user suffix; the hyphen branch and the order of the cleaning steps do not matter |
| `Jid.HandedBackIff` | pkg/utils/utils.go:60-67 | The inputs that come back as they went in are exactly those that contain one of the five JID suffixes |
| `Text.ContainsMeaning` | pkg/utils/utils.go:61-65 | Containing a text is having it between two others |
| `Jid.CreateJIDShape` | pkg/utils/utils.go:52-124 | Every success is a JID and a fixpoint of `CreateJID`; it is the input itself or has phone or group shape |
| `Jid.CreateJIDImage` | pkg/utils/utils.go:60-123 | Exactly which strings `CreateJID` produces from non-JIDs: "+" and 1 to 17 digits that no rewrite would shorten, or any text of digits and hyphens as a group |
| `Jid.GroupKeepsHyphen` | pkg/utils/utils.go:76-98 | Two runs of digits joined by a hyphen, 18 characters or more, become the group JID of exactly that text |
| `Jid.CountryRewrites` | pkg/utils/utils.go:127-188 | On digits the two rewrites commute, are idempotent, shorten exactly the described Mexican, Argentine and Brazilian numbers, and leave nothing to rewrite |
| `Jid.FormatMXOrARMeaning` | pkg/utils/utils.go:127-146 | Which digit strings the Mexico and Argentina rewrite shortens, and to what |
| `Jid.FormatBRMeaning` | pkg/utils/utils.go:149-188 | The same for Brazil, without the conversions of area code and first digit to numbers |
| `Jid.MexicoExtraDigits` | pkg/utils/utils.go:127-146 | A Mexican number of 13 digits gets the JID of the number without the two digits after 52 |
| `Jid.ArgentinaExtraDigit` | pkg/utils/utils.go:127-146 | An Argentine number of 13 digits gets the JID of the number without the digit after 54 |
| `Jid.BrazilExtraDigit` | pkg/utils/utils.go:149-188 | From area code 31 up, a number with its extra mobile digit 7 to 9 gets the JID of the number without it |
| `Jid.OtherNumbersAreKept` | pkg/utils/utils.go:127-188 | Every other digit string keeps all its digits |
| `Jid.ExactCollisions` | pkg/utils/utils.go:100-123 | Two phone inputs get the same JID iff their digits are equal or meet after shortening |
| `Jid.CleanMeaning` | pkg/utils/utils.go:69-74 | Four replacements and a split equal one filter after one cut |
| `Jid.SeparatorsDoNotMatter` | pkg/utils/utils.go:69-123 | Inputs that agree up to the first colon after removing spaces, plus signs and parentheses get the same JID or both fail |
| `Jid.DeviceSuffixDoesNotMatter` | pkg/utils/utils.go:74 | A colon and anything after it changes nothing, unless it makes the input a JID |
| `Jid.ParseAfterCreate` | pkg/utils/utils.go:191-204 | `ParseJID` gives up before parsing iff `CreateJID` fails, and otherwise hands on the same text whether or not its argument was normalised before |
| `NumberCheck.PrepareNumbersForWhatsAppCheck` | pkg/utils/utils.go:566-610 | One output per input, in place, without errors. With formatting, each is the JID of the number (or of the text before its user suffix) without the user suffix, or the number as it came where `CreateJID` fails; without, all come back as they came |
| `NumberCheck.PreparedMeaning` | pkg/utils/utils.go:577-603 | The same of one number; in particular a number that `CreateJID` refuses is looked up as it is |
| `NumberCheck.PrepareNumberForWhatsAppCheck` | pkg/utils/utils.go:614-624 | The single-number form agrees with the list form |
| `NumberCheck.LayersAgree` | pkg/utils/utils.go:573-604 | Preparing a number that `CreateJID` already normalised yields what preparing the original yields |
| `NumberCheck.PreparedTwice` | pkg/utils/utils.go:577-603 | Preparing is idempotent on every string, also where `CreateJID` fails |
| `NumberCheck.PreparedLists` | pkg/utils/utils.go:566-610 | The same for lists, with any flag the second time, and for lists normalised first in any of their places |
| `NumberCheck.RawLookupSeesNormalization` | pkg/utils/utils.go:604-607 | With formatting off, normalising first leaves the lookup alone iff the text was a JID |
| `JidValidation.NumberItems` | pkg/middleware/jid_validation_middleware.go:177-200 | The array loop: pointwise `CreateJID`, `modified` iff something changed, or the error of the first bad entry |
| `JidValidation.Request.ValidateNumberField` | pkg/middleware/jid_validation_middleware.go:164-243 | Verdict and forwarded body as `Validated` says; other keys unchanged |
| `JidValidation.FormatItems` | pkg/middleware/jid_validation_middleware.go:371-398 | The array loop that respects `formatJid`: with it, the same specification as `NumberItems`; without, only non-empty text is demanded |
| `JidValidation.Request.ValidateNumberFieldWithFormatJid` | pkg/middleware/jid_validation_middleware.go:350-445 | Unless `formatJid` is there and is the boolean false, the same specification as `ValidateNumberField` |
| `JidValidation.ValidatedIsAFunction` | pkg/middleware/jid_validation_middleware.go:164-445 | That specification fixes verdict and forwarded body, so the two handlers agree on every body whose `formatJid` is not false |
| `JidValidation.AcceptedMeaning` | pkg/middleware/jid_validation_middleware.go:166-231 | A number field is accepted iff it is non-empty text, or a non-empty array of non-empty texts, that `CreateJID` accepts throughout; without formatting, the same without `CreateJID` |
| `JidValidation.SingleNumber` | pkg/middleware/jid_validation_middleware.go:164-243 | A number that is no list: which of the errors, or which body, comes out, said of `CreateJID` alone, with and without formatting |
| `JidValidation.NumberList` | pkg/middleware/jid_validation_middleware.go:371-398 | A list: all entries become their JIDs (or stay, without formatting), or the first bad entry is reported with its reason |
| `JidValidation.RawForwardsUnchanged` | pkg/middleware/jid_validation_middleware.go:374-397 | With `formatJid` false an accepted body is forwarded unchanged |
| `JidValidation.SecondPassChangesNothing` | pkg/middleware/jid_validation_middleware.go:164-243 | A forwarded body passes again, unmodified |
| `JidValidation.MultipleItems` | pkg/middleware/jid_validation_middleware.go:284-300 | The lenient array loop: non-empty texts are normalised or refused, other entries pass |
| `JidValidation.LenientList` | pkg/middleware/jid_validation_middleware.go:284-300 | What that loop forwards, entry by entry: the JID of each non-empty text, every other entry as it came; or the first text that `CreateJID` refuses, and why |
| `JidValidation.Request.ValidateMultipleNumbers` | pkg/middleware/jid_validation_middleware.go:279-313 | The lenient handler; a field that is no array is ignored |
| `JidValidation.Request.ValidateJIDFields` | pkg/middleware/jid_validation_middleware.go:59-98 | All named present fields are normalised at once, also when a name is listed twice, or the first bad one is reported |
| `JidValidation.FieldsAcceptedMeaning` | pkg/middleware/jid_validation_middleware.go:60-87 | A body is accepted iff every named present field is non-empty text that `CreateJID` accepts; lists never are |
| `JidValidation.FieldsMappedMeaning` | pkg/middleware/jid_validation_middleware.go:59-98 | The named fields come out as their JIDs, all others as they were |
| `JidValidation.FirstBadFieldMeaning` | pkg/middleware/jid_validation_middleware.go:59-98 | The reported field is the first named one that is no number, with the reason |
| `NumberLookup.ForwardedNumbers` | pkg/middleware/jid_validation_middleware.go:350-445 | Every body the `formatJid` middleware lets through comes out with each number replaced by its JID, or with formatting off unchanged, and with the flag it had |
| `NumberLookup.CheckUserTexts` | pkg/user/service/user_service.go:202-229 | With the flag true the formatted numbers are looked up and then the numbers as they came; with false or no flag only the latter |
| `NumberLookup.LookupIsUnaffectedIff` | pkg/utils/utils.go:566-610 | For every such body and either flag a service may pass, the numbers looked up are those of the original body iff the middleware was told not to format, or the lookup formats, or every number is a JID already |
| `NumberLookup.CheckUserLookups` | pkg/user/service/user_service.go:202-229 | With the default false of `CheckUser`: the first lookup is that of the original body iff `formatJid` is a boolean or all numbers are JIDs; the unformatted retry after a formatted lookup is iff all numbers are JIDs |
| `NumberLookup.DefaultCheckLooksUpTheJid` | pkg/user/service/user_service.go:202-229 | A request without the flag that is accepted and whose JID is looked up instead of its number |
| `NumberLookup.SendTexts` | pkg/sendMessage/service/send_service.go:513-543 | No check for text with a group, broadcast, newsletter or LID suffix; otherwise the text as it is, then prepared |
| `NumberLookup.SendLookupsMeaning` | pkg/sendMessage/service/send_service.go:513-543 | For a number the middleware normalised, the unformatted first lookup is made with the JID and the formatted second is the same, or, for a group, no check is made; the check is unaffected iff the text was a JID |
| `NumberLookup.SendCheckIsUnaffectedIff` | pkg/sendMessage/service/send_service.go:513-559 | The same said of requests: unaffected iff the middleware was told not to format or got a JID |
| `EventBuffer.ExtractType` | internal/events/buffer.go:35-46 | The type is that of the first of the four keys bound to non-empty text, else "" |
| `EventBuffer.TypeMeaning` | internal/events/buffer.go:35-46 | The keys and their order: a non-empty "type" wins, then "event", "Event" and "eventType" |
| `EventBuffer.Sift` | internal/events/buffer.go:66-75 | The poll loop delivers the first allowed matches and leaves the rest, in order |
| `EventBuffer.Buffer.New` | internal/events/buffer.go:28-33 | An empty buffer of capacity at least 1 |
| `EventBuffer.Buffer.Push` | internal/events/buffer.go:49-58 | Appends the event, typed by what its own payload decodes to; drops the oldest iff full; the invariant holds |
| `EventBuffer.Buffer.Poll` | internal/events/buffer.go:62-78 | Delivers and removes what the ledger says; the invariant holds |
| `EventBuffer.Buffer.Clear` | internal/events/buffer.go:81-87 | Empties the buffer and counts what it drops |
| `EventBuffer.Buffer.Len` | internal/events/buffer.go:90-94 | The size, never above the capacity |
| `EventBuffer.PushKeeps` | internal/events/buffer.go:52-57 | A push keeps the invariant |
| `EventBuffer.PushEvictsIffFull` | internal/events/buffer.go:54-57 | A push evicts exactly the oldest event iff the buffer is full |
| `EventBuffer.PollKeeps` | internal/events/buffer.go:66-77 | A poll with any filter and limit keeps the invariant |
| `EventBuffer.Conservation` | internal/events/buffer.go:49-87 | After any run every pushed event is in exactly one place, once: buffered, delivered, evicted or cleared; the size stays within the capacity |
| `EventBuffer.PerTypeFifo` | internal/events/buffer.go:49-87 | After any run the buffered events of a type are its newest, and events of a type were delivered in push order, whatever filters and limits were used |
| `EventBuffer.PushOnlyRun` | internal/events/buffer.go:49-58 | A run of pushes leaves the last min(n, cap) of them, in order |
| `EventBuffer.PollTwice` | internal/events/buffer.go:62-78 | Two polls with one filter and positive limits are one poll with the sum of the limits, in output and in what is left |
| `EventBuffer.PollsCommute` | internal/events/buffer.go:62-78 | Polls for two different types do not affect each other's output, and leave the same queue in either order, for any limits |
| `EventBuffer.PollTakesWhatItMay` | internal/events/buffer.go:68-75 | Only matches are delivered, within the limit, and a match is left only if the limit was used up |
| `EventBuffer.PollOfAnyType` | internal/events/buffer.go:66-75 | Without a type and a limit a poll delivers the whole queue and leaves nothing; with a limit it delivers that many of the oldest |
| `EventBuffer.PollOfOneType` | internal/events/buffer.go:66-75 | With a type and no limit it delivers exactly the events of that type and leaves exactly the others; with a limit, the first that many of these |
| `EventBuffer.PollSplits` | internal/events/buffer.go:66-75 | Nothing is lost or duplicated, and both parts keep the order |
| `EventBuffer.StampsDoNotMatter` | internal/events/buffer.go:66-77 | What a poll does depends on the events alone, not on the stamps the ledger adds |
| `AdminDsn.ExtractDBNameAndAdminDSN` | pkg/config/config.go:125-142 | The database name is the last dbname value, an empty or missing one is an error, and the DSN prints the table with dbname replaced, in some order |
| `AdminDsn.AdminDsnRoundTrip` | pkg/config/config.go:125-142 | For every printing order, reading the admin DSN back gives the original last-wins table with only dbname replaced |
| `AdminDsn.FieldsOfJoin` | pkg/config/config.go:125-142 | Splitting at spaces undoes joining words |
| `AdminDsn.FieldsAtSpace` | pkg/config/config.go:125 | Splitting at a space splits both sides, so runs of spaces and spaces at either end separate nothing |
| `AdminDsn.FieldsOfWord` | pkg/config/config.go:125 | Text without a space is one word |
| `AdminDsn.SpaceCharacters` | pkg/config/config.go:125 | The characters that count as spaces |
| `AdminDsn.JoinMeaning` | pkg/config/config.go:142 | One space between each two parts |
| `AdminDsn.UrlSchemes` | pkg/config/config.go:114 | A DSN is a URL iff it starts with one of the two schemes |
| `AdminDsn.TableMeaning` | pkg/config/config.go:126-132 | The table binds a key to the value of the last part with that key |
| `AdminDsn.TableEntries` | pkg/config/config.go:126-132 | Every key comes from a part, has no equals sign, and prints as one word |
| `AdminDsn.AdminDsnMayTurnIntoUrl` | pkg/config/config.go:112-142 | Some order prints a DSN that would be read as a URL iff some key starts like one |
| `AdminDsn.UrlKeyExample` | pkg/config/config.go:112-142 | Such a DSN |
| `LoggerCache.LoggerManager.GetLogger` | pkg/logger/logger.go:49-70 | With other calls interleaved between its two locks, a call returns the stored logger of its instance and keeps all stored loggers; if its instance was there at once, it changes nothing |
| `LoggerCache.StepKeepsInv` | pkg/logger/logger.go:49-70 | Every step of every call keeps mutual exclusion, agreement with the stored logger, and the record of loggers made |
| `LoggerCache.StoredForever` | pkg/logger/logger.go:49-70 | In every run a stored logger stays and is never replaced |
| `LoggerCache.SameInstanceSameLogger` | pkg/logger/logger.go:49-70 | Under every interleaving two calls return the same logger iff they asked for the same instance, and it is the stored one |
| `LoggerCache.OneLoggerPerInstance` | pkg/logger/logger.go:61-69 | In every reachable state no two loggers have been made for one instance, and all but possibly the newest are stored under theirs |
| `LoggerCache.FastPath` | pkg/logger/logger.go:50-56 | A call that looks while its logger is stored returns it without making one and without the write lock |
| `LoggerCache.NoDeadlock` | pkg/logger/logger.go:50-59 | Under a lock that admits no reader while a writer waits, some call can take a step while some call has not returned |
| `LoggerCache.WriterWaits` | pkg/logger/logger.go:58-59 | In every reachable state with a waiting writer: no new reader enters, readers inside go on, the writer enters iff they are gone, and it is the only writer |
| `RetryPublisher.Producer.Reconnect` | pkg/events/rabbitmq/rabbitmq_producer.go:85-117 | The dial loop refines its specification |
| `RetryPublisher.Producer.EnsureConnection` | pkg/events/rabbitmq/rabbitmq_producer.go:119-124 | The same for probing and reconnecting |
| `RetryPublisher.Producer.PublishWithRetry` | pkg/events/rabbitmq/rabbitmq_producer.go:126-168 | The same for the retry loop |
| `RetryPublisher.RedialMeaning` | pkg/events/rabbitmq/rabbitmq_producer.go:92-116 | All dials but a successful last one fail, failure takes all tries, and the connection object is the one the last dial handed back, which a failed dial may do too |
| `RetryPublisher.EnsureMeaning` | pkg/events/rabbitmq/rabbitmq_producer.go:85-124 | Success iff the probe finds the connection open or a dial succeeds; the connection is non-nil then; failure takes three dials |
| `RetryPublisher.PublishResult` | pkg/events/rabbitmq/rabbitmq_producer.go:126-168 | Nil iff the last publish succeeded, or there were no turns, or all turns were used, the last publish found the channel closed, and connection and channel were then there; crash iff a failed open is followed by another turn; at most one publish succeeds; at most maxRetries publishes and 3*maxRetries dials; the connection is touched only after a closed-channel error; a channel is opened right after every probe that finds the connection open and every dial that connects, and only then |
| `RetryPublisher.FollowsProtocol` | pkg/events/rabbitmq/rabbitmq_producer.go:85-168 | For every broker the traffic is, request by request, that of a protocol in which the last answer decides the next request, and the loop ends exactly where the protocol makes none |
| `RetryPublisher.NilWithoutPublish` | pkg/events/rabbitmq/rabbitmq_producer.go:153-167 | A broker for which nil is returned and nothing was sent |
| `WsRegistry.Producer.RemoveBroadcastClient` | pkg/events/websocket/websocket_producer.go:79-89 | The search and removal in place take out the first occurrence |
| `WsRegistry.Producer.ServeWs` | pkg/events/websocket/websocket_producer.go:39-54 | A connect is one event of the history that the registry results from |
| `WsRegistry.Producer.ReaderEnds` | pkg/events/websocket/websocket_producer.go:56-69 | So is the end of its reader |
| `WsRegistry.BroadcastIsExact` | pkg/events/websocket/websocket_producer.go:39-89 | After any interleaving the broadcast list is duplicate-free, in arrival order, and holds exactly the broadcast connections not cleaned up |
| `WsRegistry.NoBroadcastClient` | pkg/events/websocket/websocket_producer.go:48-52 | A connection without an instance is never in the per-instance map |
| `WsRegistry.InstanceMeaning` | pkg/events/websocket/websocket_producer.go:39-54 | A connection's instance is the one it connected with |
| `WsRegistry.ClientsAreExact` | pkg/events/websocket/websocket_producer.go:91-103 | The per-instance map holds a connection iff it connected for the instance and since then no connection arrived for the instance and none made for it ended; every connection in it is live |
| `WsRegistry.LostClients` | pkg/events/websocket/websocket_producer.go:91-103 | A live connection is missing from the map iff, after it arrived, another arrived for its instance or one made for its instance ended |
| `WsRegistry.StaleCloseDeletesTheNewer` | pkg/events/websocket/websocket_producer.go:98-103 | With two live connections of an instance, the close of one takes the instance out of the map though the other is live |
| `WsRegistry.StaleCloseExample` | pkg/events/websocket/websocket_producer.go:91-103 | Such a history |
| `Backoff.RunWS` | internal/events/wsclient.go:30-60 | The loop waits in each turn what `TurnWait` says, for every pattern of dial outcomes |
| `Backoff.TurnWaitsAt` | internal/events/wsclient.go:42-60 | The list of waits holds the wait of each turn at its place |
| `Backoff.TurnWaitMeaning` | internal/events/wsclient.go:43-59 | A wait depends only on the number of turns since the last healthy connection |
| `Backoff.SinceMeaning` | internal/events/wsclient.go:43-59 | What that number counts |
| `Backoff.BoundsOfACall` | internal/events/wsclient.go:30-60 | The waits of a call are those of its own bounds, with one second for a minimum that is not positive, and the minimum for a smaller maximum |
| `Backoff.WaitsInARun` | internal/events/wsclient.go:33-60 | With a maximum of at most half the largest int64, in every run: the wait is the minimum times 2^k, capped, k turns after the last healthy connection; the bounds, the reset, and no decrease between healthy connections |
| `Backoff.ClosedFormHoldsIff` | internal/events/wsclient.go:33-60 | The closed form holds for every run of failures, and already for the first 64, iff the maximum is at most half the largest int64 |
| `Backoff.Overflows` | internal/events/wsclient.go:56-58 | For every larger maximum it fails within 64 failures |
| `Backoff.OverflowExample` | internal/events/wsclient.go:56-58 | With the default minimum and the largest maximum the 35th wait is negative |
| `JsonSearch.GetObject` | pkg/utils/utils.go:340-366 | The recursive search ends, and its result is a possible outcome over iteration orders |
| `JsonSearch.Outcomes` | pkg/utils/utils.go:347-365 | Exactly which results are possible: every non-empty string bound to the key on a path through objects, and "" iff every such binding can be hidden |
| `JsonSearch.NoEmptyBindingNoMiss` | pkg/utils/utils.go:347-365 | If no reachable object binds the key to "", a binding is found whenever there is one, in every order |
| `JsonSearch.MissIffAllHidden` | pkg/utils/utils.go:347-365 | A result of "" is possible iff every path to a non-empty binding passes an object that binds the key to "" |
| `JsonSearch.EmptyBindingHides` | pkg/utils/utils.go:347-365 | An object for which both answers are possible |

## Left out

- ExtractDBNameAndAdminDSN: models the key=value branch only; the URL branch rests on `net/url`, which is not part of this model.
- RunWS: dialling, pumping messages and the clock are inputs: which turns connected, and after how many turns the context is done.
- GetLogger: making a logger touches the file system; here it only makes a new object.
- HTTP itself: content types, reading and writing bodies, multipart forms (`validateFormFields`), and JSON text as opposed to decoded JSON.
- `ValidateContactFields`: it repeats the single-field case for a number and a vcard phone.
- `Produce` of the RabbitMQ producer around `publishWithRetry` (opening a channel, confirm mode, queue declaration), and `CreateGlobalQueues`.
- `Produce` of the WebSocket producer: sending to the registered connections.
- `types.ParseJID` and everything else of whatsmeow: the model stops at the string handed to it.
- Invalid UTF-8 in a DSN, whose bytes have no rune.
- Slice aliasing in the event buffer and in the middleware: queues and arrays are values that the methods reassign.
- JSON decoding: the event buffer is given the decoder as a function from payloads to objects, and stores payloads as text.
- WhatsApp's answers to a lookup, the merging of `CheckUser`'s two results, and the configuration switch that turns the
  check before sending off.
- Timestamps of events, sleeps between retries, heartbeats, and logging.
- MCP tools, JSON-RPC dispatch, handlers, services, routes, telemetry, and the web manager.
