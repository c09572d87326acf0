# TRAZZO work-log core, modelled in Dafny

TRAZZO is a work-log system. Users record work items ("registros": requirements and incidents) with a task tree, a time estimate, a running clock and attached evidence files. Three programs share this state:

- `SocketServer/server.js`, a Node WebSocket relay. It tracks which sockets belong to which user and which work item each socket claims to be working on. It routes notifications between a user's sockets. When a socket that claims an item disappears, it pauses that item after a five-second grace period, and a heartbeat drops sockets that stop answering.
- `BitacoraApi`, the ASP.NET API. Its repository stores registros, tasks and evidence rows. It builds each registro's attachment list as tokens, and its controller rewrites local evidence paths into public URLs.
- `Bitacora`, the WPF client. Its value converters and edit form read the attachment tokens. Its view model keeps one registro active with a ticking clock and pauses the others. Its task tree rolls estimates and dates up to parent tasks, and it has an assignments board and an estimate dialog. Its password hasher holds a versioned salt-and-hash container.

The model follows that structure, one module per component:

- `Core` and `Strings`: the C# and JavaScript semantics the rest relies on. This covers 32-bit unchecked arithmetic, division and remainder that truncate toward zero, `int.TryParse`, trimming, split and join, `Path.GetFileName` and `Path.GetExtension`.
- `StableSort`: the stable sort behind LINQ `OrderBy ... ThenBy`.
- `Relay`: the relay server as a class with its presence maps, claims, grace check and heartbeat.
- `Dtos`, `Repository`, `PublicUrls` and `DbService`: the API data shapes and the client's database and API service.
- `Converters` and `FormView`: the converters and the edit form. Attachment tokens are `mini`, `full`, size in kB and name, separated by a vertical bar (written "bar" below), with missing parts dropped. A registro's tokens are joined by `;`.
- `Registros`, `Tasks` and `TimeBoxes`: the client's work item, its task tree and the hours-and-minutes text boxes. `TimeBoxLaws` holds the lemmas about the text boxes.
- `ViewModel` and `ViewModelClass`: the registro view model, as specification functions and as a class.
- `Asignaciones`, `TiempoEstimado`, `PasswordHasher` and `Notifications`: the assignments board, the estimate dialog, the password hasher and the notification labels.

Objects whose fields the source updates in place are classes with `modifies` clauses. Each of their methods is proved against a specification function of the old state, and the lemmas about those functions state what the source promises.

## Model

| member | source | states |
|---|---|---|
| Core.Wrap32 | Bitacora/Views/TiempoEstimadoWindow.xaml.cs:38 | unchecked 32-bit arithmetic: a result in range is exact, and any other is congruent to the true value modulo 2^32 |
| Core.Quot | Bitacora/Views/TiempoEstimadoWindow.xaml.cs:15 | C# integer division rounds toward zero, also for negative dividends |
| Core.Rem | Bitacora/Views/TiempoEstimadoWindow.xaml.cs:16 | C# remainder: dividend equals quotient times divisor plus remainder, the remainder is smaller than the divisor in magnitude and takes the dividend's sign |
| Strings.ParseIntTextInt32 | Bitacora/Models/TareaRegistro.cs:268-292 | an Int32 written with `ToString` is read back by `int.TryParse` as itself |
| Strings.ParseNeedsDigit | Bitacora/Views/TiempoEstimadoWindow.xaml.cs:34-35 | text without a digit does not parse, so `int.TryParse` leaves 0 |
| Strings.SplitNonEmptyJoin | Bitacora/Models/TareaRegistro.cs:212 | splitting with `RemoveEmptyEntries` the join of non-empty segments free of the separator gives the segments back |
| Strings.SplitNonEmptyStable | Bitacora/Models/TareaRegistro.cs:212 | joining the segments of a split and splitting again gives the same segments |
| Strings.GetFileName | Bitacora/Models/TareaRegistro.cs:215 | `Path.GetFileName` is a suffix of the path free of directory separators, preceded by a separator or by a drive root such as `C:`, and never reaching into that drive root (`C:foto.png` names `foto.png`) |
| Strings.GetFileNamePlain | Bitacora/Models/TareaRegistro.cs:215 | a path with no directory separator is its own file name, less a leading drive root |
| Strings.GetExtension | Bitacora/Converters/PathToIsImageConverter.cs:24 | `Path.GetExtension` is empty or a '.' followed by at least one character, a suffix of the path with no separator and no other '.' |
| StableSort.SortByPermutes | Bitacora/Views/AsignacionesView.xaml.cs:54-64 | LINQ `OrderBy` keeps every element, as often as it occurs |
| StableSort.SortBySorted | Bitacora/Views/AsignacionesView.xaml.cs:54-64 | LINQ `OrderBy` with `ThenBy` orders by the composite key |
| StableSort.SortByStable | Bitacora/Views/AsignacionesView.xaml.cs:54-64 | LINQ `OrderBy` is stable: elements with equal keys keep their relative order |
| StableSort.SortBySortedInput | Bitacora/Models/TareaRegistro.cs:114 | a sequence already in key order comes back unchanged |
| Relay.TargetUser | SocketServer/server.js:115-123 | a target id exists exactly when the field is a string with a non-white-space character, and it is then the trimmed, non-empty string |
| Relay.ForwardedFields | SocketServer/server.js:125-166 | every forwarded field is the sender's truthy value or its default (`''`, or 0 for the time); `fromUserId` is the sender's non-empty id or null |
| Relay.Socket.constructor | SocketServer/server.js:91-95 | a new connection has no user, is alive and is open |
| Relay.WithoutOwnerSet | SocketServer/server.js:53-59 | when only `u`'s set holds the socket, taking it out changes that set alone and deletes it when it empties |
| Relay.WithoutNoOwner | SocketServer/server.js:53-59 | a socket in no set leaves the map unchanged |
| Relay.MovedStepwise | SocketServer/server.js:51-68 | leave the old set, create the user's set when missing, add the socket: together this is the move |
| Relay.MovedShape | SocketServer/server.js:51-71 | after the move the socket is in the new user's set and in no other; every set stays non-empty under a non-empty id; nobody else moves |
| Relay.RecipientsAppend | SocketServer/server.js:83-87 | each delivery adds exactly its socket to the recipients |
| Relay.RelayServer.constructor | SocketServer/server.js:38-42 | the relay starts with no connections, empty maps, an empty outbox and no pending grace checks |
| Relay.RelayServer.OnConnection | SocketServer/server.js:91-96 | a connection joins `wss.clients` alive, open and anonymous |
| Relay.RelayServer.OnPong | SocketServer/server.js:98-100 | a pong marks the socket alive |
| Relay.RelayServer.LeaveUserSet | SocketServer/server.js:53-59 | the socket leaves its user's set, and the set goes when empty |
| Relay.RelayServer.RegisterClient | SocketServer/server.js:51-71 | `ws.userId` becomes the id; the socket is in that user's set and in no other; the map is the move of the old one |
| Relay.RelayServer.SendToUser | SocketServer/server.js:74-88 | the outbox grows by one identical payload to each open socket of the user, each socket once, and by nothing for an unknown or empty set |
| Relay.RelayServer.OnRegister | SocketServer/server.js:115-123 | a blank or non-string id changes nothing; otherwise the socket is registered under the trimmed id |
| Relay.RelayServer.OnAssignment | SocketServer/server.js:125-147 | a missing or blank `toUserId` sends nothing; otherwise exactly the target's open sockets receive the assignment payload |
| Relay.RelayServer.OnStatusUpdate | SocketServer/server.js:149-166 | a missing or blank `toUserId` sends nothing; otherwise exactly the target's open sockets receive the status payload |
| Relay.RelayServer.OnRegisterTask | SocketServer/server.js:168-182 | an anonymous socket takes a truthy string `userId` from the message; the claim is set or overwritten only for a socket with a user and a truthy `registroId`, and is otherwise unchanged |
| Relay.RelayServer.OnUnregisterTask | SocketServer/server.js:184-192 | a socket with a user loses its claim whatever id the message carries; an anonymous socket changes nothing |
| Relay.RelayServer.OnMessage | SocketServer/server.js:103-200 | each of the five known types (`register`, `assignment`, `status_update`, `register_task`, `unregister_task`) has exactly its handler's effect and leaves the other state alone; a message without a string `type`, or with an unknown type, changes nothing |
| Relay.RelayServer.OnClose | SocketServer/server.js:204-227 | the socket closes and leaves `wss.clients`; for a socket with a user, the claim and the set membership go at once, and a truthy claim schedules one grace check |
| Relay.RelayServer.GraceCheck | SocketServer/server.js:229-280 | keeps the relay's invariant; unless an open socket of the user claims the same item, the store moves the item from 2 to 3 only; the `SYSTEM` "En Pausa" update goes to the user's open sockets exactly when a row changed |
| Relay.RelayServer.FireGraceTimer | SocketServer/server.js:229-280 | keeps the relay's invariant; the earliest pending timer is removed and its grace check has exactly the store and outbox effect stated for `GraceCheck` (pause from 2 to 3 unless resumed elsewhere, `SYSTEM` "En Pausa" to the user's open sockets only then); with none pending nothing changes |
| Relay.RelayServer.HeartbeatTick | SocketServer/server.js:293-303 | a socket not alive since the last tick is terminated; every socket ends the tick marked not alive; no user id changes |
| Relay.RelayServer.MissedPongTerminates | SocketServer/server.js:293-303 | two ticks with no pong between them terminate an open connection |
| Relay.RelayServer.PongKeepsAlive | SocketServer/server.js:293-303 | a pong between two ticks keeps an open connection open |
| Repository.PathFields | BitacoraApi/Repositories/BitacoraRepository.cs:1118-1130 | the path part is one or two fields, the first never blank |
| Repository.TokenOf | BitacoraApi/Repositories/BitacoraRepository.cs:1118-1148 | a row yields a token exactly when it has a non-blank path; the token is non-blank and starts with its first path field |
| Repository.PathText | BitacoraApi/Repositories/BitacoraRepository.cs:1118-1132 | the mini and full paths joined by a bar when both paths are non-blank, otherwise the non-blank one; a row is kept exactly when that text is non-blank |
| Repository.NamedFields | BitacoraApi/Repositories/BitacoraRepository.cs:1139-1146 | a non-blank name is appended after a bar and "0" when the size is not positive and directly otherwise; a blank name appends nothing |
| Repository.TokenIsJoin | BitacoraApi/Repositories/BitacoraRepository.cs:1118-1148 | the appended string is the bar-join of the token's fields |
| Repository.FieldsAppended | BitacoraApi/Repositories/BitacoraRepository.cs:1132-1146 | the fields are the path fields, then the size field, then the name fields, in that order |
| Repository.Tokens | BitacoraApi/Repositories/BitacoraRepository.cs:1112-1150 | at most one token per row, none blank |
| Repository.AdjuntosString | BitacoraApi/Repositories/BitacoraRepository.cs:1153 | the result is null exactly when no row gave a token |
| Repository.BuildToken | BitacoraApi/Repositories/BitacoraRepository.cs:1114-1148 | the string appended to, field by field, is the row's token |
| Repository.CollectTokens | BitacoraApi/Repositories/BitacoraRepository.cs:1110-1150 | the reader loop collects exactly the tokens, in row order |
| Repository.LoadAdjuntos | BitacoraApi/Repositories/BitacoraRepository.cs:352-397 | `GetRegistroByIdAsync` sets `Adjuntos` only when a token was built, and then to the same text `GetAdjuntosStringAsync` returns; otherwise it is left as it was |
| Repository.GetAdjuntosString | BitacoraApi/Repositories/BitacoraRepository.cs:1098-1153 | the joined tokens, non-blank, or null when there are none |
| Repository.FieldsAvoid | BitacoraApi/Repositories/BitacoraRepository.cs:1118-1146 | the token's fields hold no character that the row's texts avoid, other than a digit |
| Repository.TokenSplits | BitacoraApi/Repositories/BitacoraRepository.cs:1118-1146 | splitting a token on a bar gives back its fields when no path or name holds a bar |
| Repository.NameFollowsSize | BitacoraApi/Repositories/BitacoraRepository.cs:1134-1146 | a non-blank name is the last field and the field before it parses as the size when positive, otherwise as 0 |
| Repository.TokensAvoid | BitacoraApi/Repositories/BitacoraRepository.cs:1110-1150 | every token is non-empty and holds no ';' when no row text holds one |
| Repository.AdjuntosSplits | BitacoraApi/Repositories/BitacoraRepository.cs:1153 | splitting `Adjuntos` on ';' with empty entries dropped gives back exactly the tokens |
| Repository.TipoToDb | BitacoraApi/Repositories/BitacoraRepository.cs:428 | "I" exactly for "Incidente", "R" for anything else |
| Repository.TipoFromDb | BitacoraApi/Repositories/BitacoraRepository.cs:228 | "Incidente" exactly for "I", "Requerimiento" for anything else |
| Repository.TipoRoundTrip | BitacoraApi/Repositories/BitacoraRepository.cs:228-428 | writing and reading back keeps "Incidente" and turns any other tipo into "Requerimiento"; reading and writing back keeps "I" and turns anything else into "R" |
| Repository.EstadoFromDb | BitacoraApi/Repositories/BitacoraRepository.cs:230 | a NULL `Estado` reads as "Pendiente"; any other value is kept |
| Repository.MinutesToStore | BitacoraApi/Repositories/BitacoraRepository.cs:468-469 | seconds are stored as minutes truncated toward zero: quotient and C# remainder rebuild the seconds, and the magnitude never grows |
| Repository.SecondsFromStore | BitacoraApi/Repositories/BitacoraRepository.cs:247-248 | stored minutes read back as minutes × 60 when that fits in an `int` |
| Repository.DurationRoundTrip | BitacoraApi/Repositories/BitacoraRepository.cs:247-469 | a duration written and read back is t − t % 60 (C# remainder), so t − t % 60 for t ≥ 0 |
| Repository.ParseLong | BitacoraApi/Repositories/BitacoraRepository.cs:425 | `long.Parse` fails on null and otherwise agrees with `long.TryParse` |
| Repository.PartiesOf | BitacoraApi/Repositories/BitacoraRepository.cs:425-426 | the requester is `long.Parse(CreadoPor)`; the assignee is `long.Parse(AsignadoA)`, or the requester when AsignadoA is null or empty; a failed parse aborts |
| Repository.TryParseNonEmpty | BitacoraApi/Repositories/BitacoraRepository.cs:795-798 | a value exactly when the text is non-empty and parses as a `long` |
| Repository.SubParties | BitacoraApi/Repositories/BitacoraRepository.cs:795-798 | an inserted sub-registro's requester is its own when it parses, else the parent's, else 0; its assignee is its own when it parses, else the requester |
| Repository.MatchId | BitacoraApi/Repositories/BitacoraRepository.cs:755-757 | a sub matches exactly when its id is not blank, parses as a `long` and is an existing live child |
| Repository.SaveDetalles | BitacoraApi/Repositories/BitacoraRepository.cs:727-853 | the loop updates exactly the matched subs, inserts all others, and soft-deletes exactly the existing children no sub matched |
| Repository.SaveStep | BitacoraApi/Repositories/BitacoraRepository.cs:753-833 | each sub adds itself to the updates or to the inserts, and its id to the processed set only when it matched |
| Repository.PartitionCounts | BitacoraApi/Repositories/BitacoraRepository.cs:753-833 | every incoming sub lands on exactly one side: updates plus inserts are as many as the subs |
| Repository.UpdatesInExisting | BitacoraApi/Repositories/BitacoraRepository.cs:755-790 | every update names an existing live child |
| Repository.MatchedAreUpdated | BitacoraApi/Repositories/BitacoraRepository.cs:835-851 | the processed ids are exactly the ids updated, all existing; so the soft-deleted children are those no update touched |
| Repository.ResendKeepsAll | BitacoraApi/Repositories/BitacoraRepository.cs:835-851 | re-sending every existing child soft-deletes none of them |
| Repository.DistinctIgnoreCase | BitacoraApi/Repositories/BitacoraRepository.cs:889 | keeps, in input order, exactly the first name of each case-insensitive class: each kept name sits at a position where no earlier name equals it ignoring case, the positions increase, no two kept names are equal ignoring case, and every input name has a kept one of its class |
| Repository.NonBlankNames | BitacoraApi/Repositories/BitacoraRepository.cs:888 | the non-blank names, all of them |
| Repository.NormalizeNames | BitacoraApi/Repositories/BitacoraRepository.cs:880-890 | a null list is empty; the result holds no blank name and no two equal ignoring case, and covers every non-blank input name |
| Repository.TargetedPaths | BitacoraApi/Repositories/BitacoraRepository.cs:911-926 | at most one path pair per stored row |
| Repository.SoftDeleteByName | BitacoraApi/Repositories/BitacoraRepository.cs:878-946 | an empty name list returns nothing and changes nothing; otherwise exactly the live rows in scope with one of the names are marked deleted, and their paths are returned |
| Repository.EmptyNamesNoPaths | BitacoraApi/Repositories/BitacoraRepository.cs:892-895 | no names select no rows |
| PublicUrls.ReplaceChar | BitacoraApi/Controllers/RegistrosController.cs:154 | the same length, every `a` replaced by `b`, every other character kept |
| PublicUrls.EvidenciaUrl | BitacoraApi/Controllers/RegistrosController.cs:153-155 | the URL is the request prefix, "/evidencias/", then the path below the root with no backslash left |
| PublicUrls.ToPublicSingle | BitacoraApi/Controllers/RegistrosController.cs:131-156 | blank values, absolute http/https URLs and rooted paths outside the Evidencias root come back unchanged; a relative path gets the request prefix; a rooted path below the root becomes its /evidencias URL; a non-blank value never becomes empty |
| PublicUrls.RewriteFields | BitacoraApi/Controllers/RegistrosController.cs:181-225 | as many fields as went in; field 0 is always rewritten; fields from index 2 on are copied; with 2 or 3 fields and an integer second field only field 0 changes, otherwise field 1 is rewritten too |
| PublicUrls.ToPublicUrl | BitacoraApi/Controllers/RegistrosController.cs:158-228 | a blank value is kept; a value without a bar is rewritten as one path; otherwise the bar-join of the rewritten fields |
| PublicUrls.RewriteKeepsFields | BitacoraApi/Controllers/RegistrosController.cs:181-227 | the rewrite keeps the number of bar-separated fields and every field from index 2 on |
| PublicUrls.PublicPaths | BitacoraApi/Controllers/RegistrosController.cs:183-184 | each path rewritten with `ToPublicSingle` |
| PublicUrls.RewritesPathsOnly | BitacoraApi/Controllers/RegistrosController.cs:181-227 | on a repository-built token the rewrite changes the path fields only and keeps the size and name fields |
| PublicUrls.RewriteTokenFields | BitacoraApi/Controllers/RegistrosController.cs:181-225 | the field-wise rewrite of a repository token with two or more fields is its rewritten paths followed by its other fields |
| PublicUrls.RewriteOnePath | BitacoraApi/Controllers/RegistrosController.cs:189-217 | a token with one path and a size or name keeps everything after the path |
| PublicUrls.RewriteTwoPaths | BitacoraApi/Controllers/RegistrosController.cs:181-224 | a token with two paths gets both rewritten and the rest kept |
| PublicUrls.SecondFieldParses | BitacoraApi/Controllers/RegistrosController.cs:191-212 | after a single path comes a size or the "0" placeholder, so the second field reads as an integer |
| PublicUrls.RewriteAfterOnePath | BitacoraApi/Controllers/RegistrosController.cs:189-217 | one path followed by a number and at most one more field: only the path is rewritten |
| PublicUrls.RewriteAfterTwoPaths | BitacoraApi/Controllers/RegistrosController.cs:181-224 | two paths, the second not a number, followed by other fields: both paths rewritten, the rest kept |
| PublicUrls.MapAdjuntos | BitacoraApi/Controllers/RegistrosController.cs:230-235 | blank `Adjuntos` is kept; otherwise it is split on ';' with empty entries dropped, each entry rewritten, and rejoined with ';' |
| PublicUrls.PublicTokens | BitacoraApi/Controllers/RegistrosController.cs:233 | each entry rewritten with `ToPublicUrl` |
| PublicUrls.MapAdjuntosEntries | BitacoraApi/Controllers/RegistrosController.cs:230-235 | the rewritten `Adjuntos` holds as many entries as the original, each the rewritten entry |
| PublicUrls.MapRegistro | BitacoraApi/Controllers/RegistrosController.cs:123-244 | `Adjuntos` rewritten, every sub-registro rewritten the same way, nothing else changed |
| PublicUrls.MapRegistroKeepsSize | BitacoraApi/Controllers/RegistrosController.cs:237-243 | the rewrite keeps the number of registros in the tree |
| PublicUrls.MapSubsKeepSize | BitacoraApi/Controllers/RegistrosController.cs:239-242 | rewriting a list of sub-registros keeps their total size |
| Converters.FileNameOf | Bitacora/Converters/PathToFileNameConverter.cs:10-49 | blank input gives ""; without a bar the file name of the whole input; with an integer second field the non-blank third field, else the first field's file name; otherwise the non-blank fourth field, else the second field's file name |
| Converters.SizeSelectionOf | Bitacora/Converters/PathTokenToSizeMbConverter.cs:18-52 | without a bar the whole input and size 0; with an integer second field fields 0 and 1; otherwise field 1 as the path and field 2 as the size when it parses, else 0 |
| Converters.SizeBytesOf | Bitacora/Converters/PathTokenToSizeMbConverter.cs:10-69 | blank input shows nothing; a shown size is positive; a positive stored size gives kb × 1024 bytes without a file-system lookup |
| Converters.ThumbnailOf | Bitacora/Converters/PathTokenToThumbnailConverter.cs:9-27 | blank input gives ""; otherwise a non-blank prefix of the input; input without a bar comes back whole |
| Converters.IsImageOf | Bitacora/Converters/PathToIsImageConverter.cs:10-26 | blank input is no image; otherwise true exactly when the lower-cased extension of the second field (of the whole input without a bar) is .png, .jpg, .jpeg, .bmp, .gif or .webp |
| Converters.TokenLayout | BitacoraApi/Repositories/BitacoraRepository.cs:1118-1146 | a repository token holds a bar exactly when it has two or more fields, and then splits back into them; a one-field token is its path |
| Converters.SizeFieldParses | BitacoraApi/Repositories/BitacoraRepository.cs:1134-1137 | the size written into a token parses back as the size |
| Converters.FileNameRoundTrip | Bitacora/Converters/PathToFileNameConverter.cs:18-48 | on every repository token whose full path is not an integer, the converter shows the stored name, or the file name of the full (or only) path when there is none |
| Converters.FileNameOneField | Bitacora/Converters/PathToFileNameConverter.cs:48 | a bare path shows its file name |
| Converters.FileNameOnePath | Bitacora/Converters/PathToFileNameConverter.cs:26-36 | a token without a thumbnail shows its name, or its path's file name |
| Converters.OnePathNameLayout | BitacoraApi/Repositories/BitacoraRepository.cs:1123-1146 | without a thumbnail the path is the first field and the name, exactly when there is one, the third |
| Converters.FileNameOfSizedFields | Bitacora/Converters/PathToFileNameConverter.cs:26-36 | with a size second field, the third field when present, else the first path's file name |
| Converters.SecondFieldSize | BitacoraApi/Repositories/BitacoraRepository.cs:1134-1146 | without a thumbnail the second field reads as the size, or as 0 before a name |
| Converters.FileNameTwoPaths | Bitacora/Converters/PathToFileNameConverter.cs:37-45 | a token with a thumbnail shows its name, or the full path's file name |
| Converters.FileNameOfSplit | Bitacora/Converters/PathToFileNameConverter.cs:20-45 | the converter's result in terms of the token's fields |
| Converters.SizeRoundTrip | Bitacora/Converters/PathTokenToSizeMbConverter.cs:18-59 | on repository tokens with a positive size and a non-integer full path, the converter reads back the full (or only) path and the stored size, and shows kb × 1024 bytes |
| Converters.SizeSelectionRoundTrip | Bitacora/Converters/PathTokenToSizeMbConverter.cs:18-52 | a positive stored size and its path are read back exactly |
| Converters.SizeOnePath | Bitacora/Converters/PathTokenToSizeMbConverter.cs:27-34 | without a thumbnail, path and size come from fields 0 and 1 |
| Converters.SizeTwoPaths | Bitacora/Converters/PathTokenToSizeMbConverter.cs:35-51 | with a thumbnail, path and size come from fields 1 and 2 |
| Converters.SizeSelectionOfFields | Bitacora/Converters/PathTokenToSizeMbConverter.cs:21-51 | a size field right after the last path is read back with that path |
| Converters.SizeSelectionOfSplit | Bitacora/Converters/PathTokenToSizeMbConverter.cs:21-51 | the selection in terms of the token's fields |
| Converters.ThumbnailRoundTrip | Bitacora/Converters/PathTokenToThumbnailConverter.cs:17-26 | a repository token shows its thumbnail path, or its only path |
| Converters.IsImageReadsSizeField | Bitacora/Converters/PathToIsImageConverter.cs:18-25 | a token without a thumbnail but with a size or a name is never an image, because the extension is read from the size field |
| Converters.IsImageOfFullPath | Bitacora/Converters/PathToIsImageConverter.cs:18-25 | with a thumbnail, the full path's extension decides |
| FormView.DecodeParts | Bitacora/Views/RegistroFormView.xaml.cs:425-469 | the thumbnail is field 0; the original path is field 0 or 1; a name, when there is one, comes from field 2 or later |
| FormView.DecodeToken | Bitacora/Views/RegistroFormView.xaml.cs:420-469 | a token without a bar is thumbnail and original path itself with size 0 and no name; a token with a bar is decoded from its fields |
| FormView.AttachmentOfToken | Bitacora/Views/RegistroFormView.xaml.cs:471-497 | a server item that is not an image; paths from the decoded token; size kb × 1024 for a positive kb, 0 for a URL without a stored size; a blank name falls back to the path |
| FormView.TrimmedEntries | Bitacora/Views/RegistroFormView.xaml.cs:413-418 | the trimmed entries, with empty ones skipped |
| FormView.ServerAttachments | Bitacora/Views/RegistroFormView.xaml.cs:414-498 | one item per token, in order |
| FormView.ServerNames | Bitacora/Views/RegistroFormView.xaml.cs:482-488 | the non-blank names, in order |
| FormView.DecodeAdjuntos | Bitacora/Views/RegistroFormView.xaml.cs:410-499 | the attachment loop builds exactly one item per non-empty trimmed entry, in order, and remembers their non-blank names |
| FormView.AppendToken | Bitacora/Views/RegistroFormView.xaml.cs:416-497 | one loop step appends the token's item and its name |
| FormView.TokenStep | Bitacora/Views/RegistroFormView.xaml.cs:416-497 | decoding one more token appends its item, and its name when not blank |
| FormView.DecodeRoundTrip | Bitacora/Views/RegistroFormView.xaml.cs:425-469 | every repository token with a non-integer full path decodes to its row: thumbnail (or only) path, full (or only) path, the size when positive, the name when stored |
| FormView.DecodeOnePath | Bitacora/Views/RegistroFormView.xaml.cs:433-444 | without a thumbnail, the path, the size and the name come from fields 0, 1 and 2 |
| FormView.DecodeTwoPaths | Bitacora/Views/RegistroFormView.xaml.cs:445-468 | with a thumbnail, the paths come from fields 0 and 1, the size from field 2 and the name from field 3 |
| FormView.AttachmentRoundTrip | Bitacora/Views/RegistroFormView.xaml.cs:471-497 | the item loaded from a repository token carries the row's paths, its positive size in bytes, and its stored name |
| FormView.LoadRoundTrip | Bitacora/Views/RegistroFormView.xaml.cs:410-499 | loading the `Adjuntos` text the repository builds gives one server item per row, in row order |
| FormView.EntriesOfTokens | Bitacora/Views/RegistroFormView.xaml.cs:413-418 | the entries of the repository's `Adjuntos` text are exactly its tokens |
| FormView.EntriesOfJoin | Bitacora/Views/RegistroFormView.xaml.cs:413-418 | joining trimmed, non-empty, ';'-free tokens and splitting them back gives the tokens |
| FormView.OneItemPerEntry | Bitacora/Views/RegistroFormView.xaml.cs:413-497 | every entry that is not blank yields exactly one item, marked as coming from the server |
| FormView.PrioridadRadioLevel | Bitacora/Views/RegistroFormView.xaml.cs:383-402 | the option checked agrees with the priority level: Critica is 4, Alta 3, Menor 1, and levels 2 and 0 show as Normal |
| FormView.TimeFieldsReadBack | Bitacora/Views/RegistroFormView.xaml.cs:404-408 | a non-negative estimate splits into boxes in range that read back as its whole minutes |
| FormView.AllTasks | Bitacora/Views/RegistroFormView.xaml.cs:770-778 | every root is listed, each followed by its sub-tasks |
| FormView.AllTasksMembers | Bitacora/Views/RegistroFormView.xaml.cs:770-778 | `GetAllTasks` lists exactly the tasks of the forest |
| FormView.AllTasksConcat | Bitacora/Views/RegistroFormView.xaml.cs:770-778 | the tasks of two forests side by side are those of the first, then those of the second |
| FormView.AddSubtaskClick | Bitacora/Views/RegistroFormView.xaml.cs:689-705 | refused at level 2 or deeper; otherwise one more sub-task, the task expanded and its level kept |
| FormView.AddSubtaskKeepsDepth | Bitacora/Views/RegistroFormView.xaml.cs:689-705 | with consistent levels, the form never builds a task deeper than level 2 |
| FormView.AddedAtMost | Bitacora/Views/RegistroFormView.xaml.cs:695-702 | a new leaf one level below a parent under the bound keeps every level within it |
| FormView.SortKeepsTasks | Bitacora/Views/RegistroFormView.xaml.cs:211-237 | sorting keeps the number of roots and, flags aside, the tasks themselves |
| FormView.DeleteKeepsFixed | Bitacora/Views/RegistroFormView.xaml.cs:671-687 | a task that is not removable survives the delete button; a removable one is removed |
| FormView.DeleteSubtaskKeepsFixed | Bitacora/Views/RegistroFormView.xaml.cs:671-687 | a non-removable sub-task survives the delete button |
| FormView.AddRootKeeps | Bitacora/Views/RegistroFormView.xaml.cs:665-669 | adding a task adds exactly one new blank task to the roots |
| FormView.InitialTasks | Bitacora/Views/RegistroFormView.xaml.cs:501-524 | at least one root, the first not removable |
| FormView.LoadedTasks | Bitacora/Views/RegistroFormView.xaml.cs:501-526 | after loading the roots are sorted by start, hold the loaded tasks or one default blank task, and one of them cannot be removed |
| FormView.RegistroForm.constructor | Bitacora/Views/RegistroFormView.xaml.cs:141-151 | a blank form: empty boxes, no priority checked, no attachment, and exactly one task, blank and not removable |
| FormView.RegistroForm.LoadRegistro | Bitacora/Views/RegistroFormView.xaml.cs:342-533 | sets the server attachment total (kb × 1024 when positive), the priority option (kept when the registro has none), the time boxes, the decoded attachments and names, and the sorted root tasks |
| FormView.RegistroForm.LoadPrioridad | Bitacora/Views/RegistroFormView.xaml.cs:383-402 | the matching option is checked; nothing changes for a null or empty priority |
| FormView.RegistroForm.LoadTareas | Bitacora/Views/RegistroFormView.xaml.cs:501-526 | the roots are the loaded ones with the first fixed, or one default task, then sorted |
| FormView.RegistroForm.SortRootTasks | Bitacora/Views/RegistroFormView.xaml.cs:211-237 | the roots end in stable start order, flagged at the two ends |
| FormView.RegistroForm.AddTask | Bitacora/Views/RegistroFormView.xaml.cs:665-669 | one removable blank task is added and the roots re-sorted |
| FormView.RegistroForm.DeleteTask | Bitacora/Views/RegistroFormView.xaml.cs:671-687 | a removable root is removed and the roots re-sorted; a fixed one is kept |
| FormView.RegistroForm.IncreaseHours | Bitacora/Views/RegistroFormView.xaml.cs:876-882 | the hours box is one more, from 0 when it does not parse |
| FormView.RegistroForm.DecreaseHours | Bitacora/Views/RegistroFormView.xaml.cs:884-890 | the hours box is one less down to 0 |
| FormView.RegistroForm.IncreaseMinutes | Bitacora/Views/RegistroFormView.xaml.cs:892-902 | 15 more minutes, carrying into the hours at 60 |
| FormView.RegistroForm.DecreaseMinutes | Bitacora/Views/RegistroFormView.xaml.cs:904-921 | 15 fewer minutes, borrowing an hour when there is one and clamping to 0 otherwise |
| TimeBoxes.HasNonDigitIff | Bitacora/Views/RegistroFormView.xaml.cs:871-874 | the regular expression "[^0-9]+" matches exactly when some character is not an ASCII digit |
| TimeBoxes.IsTextAllowed | Bitacora/Views/RegistroFormView.xaml.cs:871-874 | typed text is accepted exactly when every character is an ASCII digit |
| TimeBoxLaws.SmallTexts | Bitacora/Views/RegistroFormView.xaml.cs:880-919 | the texts the steppers reset to read as their numbers |
| TimeBoxLaws.HoursDownFloor | Bitacora/Views/RegistroFormView.xaml.cs:884-890 | the hour decrement always leaves a number of at least 0, one less when it was positive |
| TimeBoxLaws.MinutesUpAddsQuarter | Bitacora/Views/RegistroFormView.xaml.cs:892-902 | in range, +15 adds exactly 15 minutes to the time the boxes read and stays in range |
| TimeBoxLaws.CarryCase | Bitacora/Views/RegistroFormView.xaml.cs:895-898 | from 45 minutes on, +15 carries into the hours and the boxes read 15 minutes more |
| TimeBoxLaws.CarryShape | Bitacora/Views/RegistroFormView.xaml.cs:895-898 | the carry writes one more hour and m − 45 minutes |
| TimeBoxLaws.TextsInRange | Bitacora/Views/RegistroFormView.xaml.cs:407-408 | the texts of an hour count and a minute count in range read back as that time |
| TimeBoxLaws.MinutesDownSubtracts | Bitacora/Views/RegistroFormView.xaml.cs:904-921 | in range, −15 takes off 15 minutes, stopping at zero, and stays in range |
| TimeBoxLaws.BorrowCase | Bitacora/Views/RegistroFormView.xaml.cs:909-913 | below 15 minutes with a positive hour, −15 borrows an hour and the boxes read 15 minutes less |
| TimeBoxLaws.ReadsAsTexts | Bitacora/Views/RegistroFormView.xaml.cs:407-408 | boxes equal to the texts of a time in range read back as that time |
| TimeBoxLaws.BorrowShape | Bitacora/Views/RegistroFormView.xaml.cs:909-913 | the borrow writes one hour less and m + 45 minutes |
| TimeBoxLaws.ClampCase | Bitacora/Views/RegistroFormView.xaml.cs:913-915 | below 15 minutes with no hour, the minutes clamp to 0 and the hours are untouched |
| TimeBoxLaws.MinutesUnparsable | Bitacora/Views/RegistroFormView.xaml.cs:901-920 | unparsable minutes become "15" going up and "0" going down |
| TimeBoxLaws.AllowedTextParses | Bitacora/Views/RegistroFormView.xaml.cs:871-874 | an allowed non-empty text within range parses to its digits' value |
| TimeBoxLaws.StepperTextAllowed | Bitacora/Views/RegistroFormView.xaml.cs:871-874 | every count the steppers write passes the digit filter |
| Registros.ParseEstadoName | Bitacora/Services/DatabaseService.cs:297 | a state exactly when the trimmed text equals one of the five state names ignoring case, and then that state |
| Registros.ParseTipoName | Bitacora/Services/DatabaseService.cs:292 | a type exactly when the trimmed text equals one of the two type names ignoring case, and then that type |
| Registros.EstadoNamesDistinct | Bitacora/Models/Registro.cs:16-23 | no two states share a name, even ignoring case |
| Registros.ParseEstadoNameAnyCase | Bitacora/Services/DatabaseService.cs:297 | a state's name in any case parses as that state |
| Registros.EstadoNameRoundTrip | Bitacora/Services/DatabaseService.cs:297 | printing a state and parsing it back gives the state |
| Registros.TipoNameRoundTrip | Bitacora/Services/DatabaseService.cs:292 | printing a type and parsing it back gives the type |
| Registros.EstadoTextoInjective | Bitacora/Models/Registro.cs:191-205 | different states never share a label |
| Registros.EstadoAbreviadoInjective | Bitacora/Models/Registro.cs:207-221 | different states never share a code |
| Registros.ClockTextLayout | Bitacora/Models/Registro.cs:277-285 | for t ≥ 0: at least two digits of whole hours, a colon, exactly two digits of leftover minutes below 60; less than a minute is dropped |
| Registros.TiempoComparativo | Bitacora/Models/Registro.cs:287-303 | starts with the time worked as hh:mm, and is longer exactly when there is a positive estimate; then what follows is " / " and the estimate as hh:mm |
| Registros.TiempoRestante | Bitacora/Models/Registro.cs:305 | never negative; max(0, estimate − elapsed) when the difference fits in an `int`, else 0 or the wrapped difference |
| Registros.PrioridadNivel | Bitacora/Models/Registro.cs:342-353 | the level lies in 0..4 |
| Registros.PrioridadLevels | Bitacora/Models/Registro.cs:342-353 | on the trimmed, upper-cased text: 4 iff CRI occurs; 3 iff not and ALT, HIGH or URG does; 2 iff neither and NORM or MED does; 1 iff none of those and MEN, LOW or BAJ does; else 0 |
| Registros.PrioridadIgnoresPadding | Bitacora/Models/Registro.cs:346 | surrounding white space does not change the level |
| Registros.SetCodigoTipo | Bitacora/Models/Registro.cs:129-143 | only the type changes; blank text and unknown codes change nothing; REQ or R gives Requerimiento and INC or I Incidente, trimmed and in any case |
| Registros.CodigoTipoRoundTrip | Bitacora/Models/Registro.cs:126-144 | setting the code to the getter's own value leaves the registro unchanged |
| Registros.IdNumero | Bitacora/Models/Registro.cs:148-154 | "0000" when the number is not positive, else at least four digits reading as the number, exactly four below 10000 |
| Registros.CountCompleted | Bitacora/Models/Registro.cs:119 | no more done tasks than tasks |
| Tasks.NewTarea | Bitacora/Models/TareaRegistro.cs:19-30 | a new task starts and ends today (so its dates are ordered), has no children and no attachments, and is removable, expanded, not a sub-task and at level 0 |
| Tasks.SetFechaInicio | Bitacora/Models/TareaRegistro.cs:307-323 | assigning the start stores it; the end moves only when the new start is later than the current end, and then onto the new start; any real change leaves the dates ordered |
| Tasks.SetFechaFin | Bitacora/Models/TareaRegistro.cs:325-341 | assigning the end stores it; the start moves only when the new end is earlier than the current start, and then onto the new end; any real change leaves the dates ordered |
| Tasks.SetBothDates | Bitacora/Models/TareaRegistro.cs:307-341 | setting an ordered start and end, in either order, yields exactly that pair whatever the task held before |
| Tasks.SetHorasEstimadas | Bitacora/Models/TareaRegistro.cs:268-279 | only the estimate changes, and text that `int.TryParse` rejects leaves the task as it was |
| Tasks.SetMinutosEstimados | Bitacora/Models/TareaRegistro.cs:281-292 | only the estimate changes, and text that `int.TryParse` rejects leaves the task as it was |
| Tasks.SetHorasReadsBack | Bitacora/Models/TareaRegistro.cs:268-279 | after setting the hours to h the hours getter reads h, the minutes getter reads what it read before, and the estimate is a whole number of minutes |
| Tasks.SetHorasEstimate | Bitacora/Models/TareaRegistro.cs:272-277 | the new estimate holds h whole hours, the old minutes and no odd seconds |
| Tasks.SetMinutosReadsBack | Bitacora/Models/TareaRegistro.cs:281-292 | after setting the minutes to m (0..59) the minutes getter reads m and the hours getter reads what it read before |
| Tasks.SetMinutosEstimate | Bitacora/Models/TareaRegistro.cs:285-290 | the new estimate holds the old whole hours, m minutes and no odd seconds |
| Tasks.AttachmentOf | Bitacora/Models/TareaRegistro.cs:216-231 | the item built for one path keeps the path as file path and original path, names it by the path's file name and marks it as coming from the server |
| Tasks.Attachments | Bitacora/Models/TareaRegistro.cs:213-232 | one item per split segment, in the segments' order |
| Tasks.SyncedText | Bitacora/Models/TareaRegistro.cs:37-44 | the list's change handler writes null exactly when the list is empty |
| Tasks.WithArchivosAdjuntos | Bitacora/Models/TareaRegistro.cs:198-236 | assigning the attachments text changes only the text and the list |
| Tasks.SetArchivosAdjuntos | Bitacora/Models/TareaRegistro.cs:198-236 | the setter run step by step (clear, then one addition per segment, each followed by the list's change handler) ends in the state the value-level definition gives |
| Tasks.AddFiles | Bitacora/Models/TareaRegistro.cs:213-232 | the loop of additions builds one item per segment and leaves the text synchronised with the list |
| Tasks.ArchivosSync | Bitacora/Models/TareaRegistro.cs:198-236 | after a real change the text is the ';'-join of the value's non-empty segments (null when there is none), the list holds one server item per segment, and splitting the text again gives the same segments |
| Tasks.SegmentsRejoin | Bitacora/Models/TareaRegistro.cs:39 | joining the non-empty segments with ';' and splitting with `RemoveEmptyEntries` gives the same segments back |
| Tasks.WithEndFlags | Bitacora/Models/TareaRegistro.cs:117-119 | the sort marks the first child only at index 0 and the last child only at the last index, and changes nothing else |
| Tasks.MoveItem | Bitacora/Models/TareaRegistro.cs:124 | `ObservableCollection.Move` keeps the length and the elements and puts the moved element at its target |
| Tasks.IndexOfId | Bitacora/Models/TareaRegistro.cs:121 | `IndexOf` gives -1 exactly when the element is absent, and otherwise its first position |
| Tasks.SortSiblings | Bitacora/Models/TareaRegistro.cs:106-132 | the walk over the stable order, flagging and moving each child into place, leaves the children as the stably sorted, end-flagged sequence |
| Tasks.PlaceAll | Bitacora/Models/TareaRegistro.cs:115-126 | after the loop the collection is in the sorted order and every child carries the first and last flags of its final position |
| Tasks.MoveInto | Bitacora/Models/TareaRegistro.cs:121-125 | one move extends the sorted prefix by one element and keeps the collection's elements |
| Tasks.PlaceStep | Bitacora/Models/TareaRegistro.cs:121-125 | the next child of the stable order is found at or after the current position, so moving it there extends the sorted prefix |
| Tasks.SortedPositions | Bitacora/Models/TareaRegistro.cs:114 | the `OrderBy` result is the children read at a permutation of their positions |
| Tasks.SortedSiblingsSpec | Bitacora/Models/TareaRegistro.cs:106-132 | the sorted children are ordered by start (a missing start counting as `DateTime.MaxValue`), flagged only at the two ends, hold the same tasks, and tasks with equal starts keep their relative order |
| Tasks.MinStart | Bitacora/Models/TareaRegistro.cs:149 | the earliest start among the children that have one; none exactly when no child has a start |
| Tasks.MaxEnd | Bitacora/Models/TareaRegistro.cs:156 | the latest end among the children that have one; none exactly when no child has an end |
| Tasks.UpdateParentAggregates | Bitacora/Models/TareaRegistro.cs:137-170 | the roll-up changes only the parent's dates and estimate, and a parent without children is left as it is |
| Tasks.RolledDates | Bitacora/Models/TareaRegistro.cs:148-160 | the two date assignments of the roll-up change only the parent's dates |
| Tasks.AggregatesSpanChildren | Bitacora/Models/TareaRegistro.cs:137-170 | when some child has ordered dates the parent starts at the earliest child start, ends at the latest child end, has ordered dates, and its estimate is the children's sum when that fits in 32 bits |
| Tasks.AggregatesKeepUndated | Bitacora/Models/TareaRegistro.cs:149-160 | a parent whose children have no dates keeps its own dates |
| Tasks.AddSubtarea | Bitacora/Models/TareaRegistro.cs:50-89 | adding a child grows the children by one, keeps them sorted by start, and they hold the old children plus the re-levelled new one; only children, dates and estimate change |
| Tasks.AsChildOf | Bitacora/Models/TareaRegistro.cs:68-73 | the added child becomes a sub-task one level below its parent and is otherwise unchanged |
| Tasks.RemoveSubtarea | Bitacora/Models/TareaRegistro.cs:50-89 | removing a child shrinks the children by one and keeps the others; with no child left the parent keeps its dates and estimate |
| Tasks.AddLeafKeepsLevels | Bitacora/Models/TareaRegistro.cs:68-73 | adding a task without children to a consistently levelled tree keeps every level one below its parent's |
| DbService.BaseAddress | Bitacora/Services/DatabaseService.cs:25-30 | a blank setting is refused; any other address is kept and ends in exactly one added '/' when it lacked one |
| DbService.BaseAddressIdempotent | Bitacora/Services/DatabaseService.cs:30 | normalising an address a second time changes nothing |
| DbService.RegistrosQuery | Bitacora/Services/DatabaseService.cs:222-224 | the address starts with `registros?` and carries no filter exactly when both filters are null or empty |
| DbService.QueryValue | Bitacora/Services/DatabaseService.cs:223-224 | a value found for a key comes from a piece `key=value` of the query; none is found only when no piece starts with `key=` |
| DbService.QueryRoundTrip | Bitacora/Services/DatabaseService.cs:218-224 | reading the creator and assignee filters back from the address gives the ones it was built from, when they hold no '&' |
| DbService.TipoFromDto | Bitacora/Services/DatabaseService.cs:292-293 | a type name in any case selects that type; any other text selects Requerimiento |
| DbService.TipoNamesDistinct | Bitacora/Services/DatabaseService.cs:292 | no two type names are equal ignoring case, so the case-insensitive parse is unambiguous |
| DbService.EstadoFromDto | Bitacora/Services/DatabaseService.cs:296-302 | the state text with its spaces removed selects the state of that name in any case; anything else is Pendiente |
| DbService.ProcesoFallbackUnused | Bitacora/Services/DatabaseService.cs:297-300 | text equal to "En Proceso" ignoring case already parses as EnProceso once its spaces are removed, so the fallback never decides |
| DbService.EstadoDtoRoundTrip | Bitacora/Services/DatabaseService.cs:297 | a state sent by its `ToString` name comes back as the same state |
| DbService.TipoDtoRoundTrip | Bitacora/Services/DatabaseService.cs:292 | a type sent by its `ToString` name comes back as the same type |
| DbService.LoadedNode | Bitacora/Services/DatabaseService.cs:338-349 | the task built for one object carries its id, title as description, completion when the state is "Cerrado" or "Finalizado", its times and its end; its start is kept unless it was later than the end, when the end setter drags it back |
| DbService.AddAll | Bitacora/Services/DatabaseService.cs:351-358 | adding the mapped children one by one grows the children by their number and changes only children, dates and estimate |
| DbService.MapToTareaWith | Bitacora/Services/DatabaseService.cs:332-362 | as written every task is built at level 0; corrected, at its own level |
| DbService.LoadChildren | Bitacora/Services/DatabaseService.cs:353 | the children's objects are mapped one by one, in order, at the level below |
| DbService.MapToTareaAsWritten | Bitacora/Services/DatabaseService.cs:332-362 | as written a loaded task is at level 0 whatever its depth |
| DbService.MapToTarea | Bitacora/Services/DatabaseService.cs:332-362 | the corrected mapping builds a task at the level it is loaded at |
| DbService.MapToTareaList | Bitacora/Services/DatabaseService.cs:332-362 | one task per object, in order, the top ones at level 0; children are built with the corrected `MapToTarea` of Finding A (see Left out) |
| DbService.AddSubtareaKeeps | Bitacora/Services/DatabaseService.cs:355-356 | adding a child keeps any property of all children that ignores the sort flags, when the added child has it |
| DbService.AddAllKeeps | Bitacora/Services/DatabaseService.cs:353-357 | adding a run of children keeps such a property when every added child has it |
| DbService.LoadMirrors | Bitacora/Services/DatabaseService.cs:332-362 | both mappings, as written and corrected, give a task tree that mirrors the object tree: same ids, descriptions and completion at every depth, each task's children matched one to one (a rearrangement, since adding re-sorts them) with the object's children, none repeated and none lost |
| DbService.AddAllMultiset | Bitacora/Services/DatabaseService.cs:352-356 | adding the loaded children one by one stores each of them exactly once, marked as a sub-task one level below, whatever order the re-sorting leaves |
| DbService.MirrorKeepsDistinctIds | Bitacora/Services/DatabaseService.cs:350-357 | children loaded from objects with distinct ids have distinct ids: no object's child is loaded twice |
| DbService.AsWrittenLevels | Bitacora/Services/DatabaseService.cs:355-356 | as written every task below the top is at level 1, however deep it sits |
| DbService.AsWrittenLevelsBroken | Bitacora/Services/DatabaseService.cs:332-362 | as written, an object whose children all have children loads into a tree whose grandchildren sit at level 1, so its levels are not consistent |
| DbService.LoadKeepsLevels | Bitacora/Services/DatabaseService.cs:332-362 | the corrected mapping puts every child exactly one level below its parent while the levels fit in 32 bits |
| DbService.TareaToDto | Bitacora/Services/DatabaseService.cs:394-415 | a task goes out with its id, its description as title, an empty description, state "Cerrado" exactly when completed (else "Pendiente") and one sub-registro per child |
| DbService.TareaRoundTrip | Bitacora/Services/DatabaseService.cs:332-415 | saving a task and loading it back keeps its id, description and completion at every depth, its children coming back as a rearrangement of its own children, each matched with exactly one |
| DbService.LeafRoundTrip | Bitacora/Services/DatabaseService.cs:338-349 | a task without children and with ordered dates comes back with its own id, texts, completion, times and dates |
| DbService.MapToRegistro | Bitacora/Services/DatabaseService.cs:290-330 | type and state are parsed from their text, contact and telephone are not read, and there is one task per sub-registro, each at level 0, loaded through the corrected task mapping of Finding A (see Left out) |
| DbService.MapToRegistroDto | Bitacora/Services/DatabaseService.cs:364-392 | type and state go out by name, and the tasks go out one sub-registro each |
| DbService.RegistroRoundTrip | Bitacora/Services/DatabaseService.cs:290-415 | saving a registro and loading it back gives it back except contact, telephone, assignee name and task count, with the tasks agreeing at every depth, children matched one to one in some order |
| DbService.SendablePaths | Bitacora/Services/DatabaseService.cs:501-521 | the paths that go into a form are exactly the listed paths that are not blank, not http(s) addresses and exist, in order |
| DbService.PairForm | Bitacora/Services/DatabaseService.cs:489-527 | a task pair yields at most one form, and only for a non-blank server id with at least one sendable path |
| DbService.FormPaths | Bitacora/Services/DatabaseService.cs:501-521 | the loop over one task's attachment list collects exactly the sendable paths |
| DbService.UploadEvidenciasTareas | Bitacora/Services/DatabaseService.cs:465-533 | with a blank registro id nothing is sent; otherwise the tasks are paired by position up to the shorter list, sub-tasks before their own pair |
| DbService.UploadPair | Bitacora/Services/DatabaseService.cs:480-527 | one pair sends its sub-tasks' forms, when both sides have sub-tasks, and then its own |
| DbService.UploadsIgnoreExtra | Bitacora/Services/DatabaseService.cs:476 | extra tasks on the longer side are never paired |
| DbService.UploadsWellFormed | Bitacora/Services/DatabaseService.cs:465-533 | every form names a non-blank server task and carries only sendable paths |
| Notifications.GetEstadoTextoAgrees | Bitacora/Services/NotificationService.cs:589-600 | the service labels every state exactly as the work item's own state text does |
| Notifications.ParseEstadoSources | Bitacora/Services/NotificationService.cs:565-587 | any state but Pendiente comes from non-blank text that names it (spaces removed, any case) or that is its label |
| Notifications.ParseEstadoIgnoresCaseAndSpaces | Bitacora/Services/NotificationService.cs:570-573 | text naming a state in any case and with spaces anywhere parses as that state |
| Notifications.ParseEstadoRoundTrip | Bitacora/Services/NotificationService.cs:565-600 | reading back the label of any state gives the state |
| Notifications.LabelsReadBack | Bitacora/Services/NotificationService.cs:575-584 | the label list of the parser maps every label back to its state |
| Notifications.LabelsAsNames | Bitacora/Services/NotificationService.cs:572 | with its spaces removed only the EnEspera label is a state name, so the other labels are decided by the label list |
| Notifications.ParseEstadoBlank | Bitacora/Services/NotificationService.cs:567-568 | null or blank text parses as Pendiente |
| Notifications.ShownOr | Bitacora/Services/NotificationService.cs:477-480 | a blank text shows as the fallback; any other shows trimmed, non-empty and not starting with white space |
| Notifications.AssignmentEvent | Bitacora/Services/NotificationService.cs:475-507 | blank type, priority and project show as "Registro", "Sin prioridad" and "Sin proyecto", the state by its label, and the alarm carries the shown type and the other fields as given |
| Notifications.HandleIncoming | Bitacora/Services/NotificationService.cs:198-244 | an event is raised exactly for an `assignment` with id and title or a `status_update` with id; the alarm carries the parsed state and code and header defaults "0000" and the standard header; the status event carries id, parsed state, time and sender |
| Notifications.Greeting | Bitacora/Services/NotificationService.cs:112-140 | a new connection sends the user's registration and then, when there is an active work item, its claim |
| Notifications.RetryGreeting | Bitacora/Services/NotificationService.cs:306-314 | a send path writes a greeting first exactly when the socket was closed and the retry opened it |
| Notifications.NotificationService.constructor | Bitacora/Services/NotificationService.cs:27-30 | a new service has no user, no active work item, no open socket and nothing sent |
| Notifications.NotificationService.StartPolling | Bitacora/Services/NotificationService.cs:51-55 | the user is remembered and, for a non-empty user, a connection that opens sends the greeting |
| Notifications.NotificationService.StopPolling | Bitacora/Services/NotificationService.cs:58-63 | the user is forgotten and the socket dropped; the active work item and what was sent stay |
| Notifications.NotificationService.ConnectAndListen | Bitacora/Services/NotificationService.cs:96-149 | without a user nothing happens; otherwise the socket is replaced and, when it opens, the greeting is sent |
| Notifications.NotificationService.EnsureOpen | Bitacora/Services/NotificationService.cs:306-314 | the send paths reconnect only when the socket is closed and there is a user |
| Notifications.NotificationService.RegistrarTareaActiva | Bitacora/Services/NotificationService.cs:345-402 | the id is always recorded as the active work item, and its claim is sent when the socket is or gets open |
| Notifications.NotificationService.DesregistrarTareaActiva | Bitacora/Services/NotificationService.cs:404-457 | the record is cleared only when it holds this id, and the release is sent when the socket is or gets open |
| Notifications.NotificationService.SendStatusUpdate | Bitacora/Services/NotificationService.cs:304-343 | the state update goes out, with the state under its enumeration name, when the socket is or gets open |
| Notifications.ClaimSurvivesReconnect | Bitacora/Services/NotificationService.cs:345-402 | for every user, a claim made while the socket is closed is re-sent right after that user's registration when the connection opens |
| Notifications.StopThenConnect | Bitacora/Services/NotificationService.cs:58-99 | after `StopPolling` a connection attempt does nothing |
| ViewModel.Contar | Bitacora/ViewModels/RegistroViewModel.cs:209-213 | a state's counter never exceeds the number of listed registros |
| ViewModel.ContadoresSuman | Bitacora/ViewModels/RegistroViewModel.cs:207-215 | every registro is in exactly one state, so the five counters add up to the total |
| ViewModel.Where | Bitacora/ViewModels/RegistroViewModel.cs:226 | the filtered view has exactly as many registros as the counter of that state says |
| ViewModel.Filtrar | Bitacora/ViewModels/RegistroViewModel.cs:217-228 | without a filter the view is the whole list; with one it has as many registros as that state's counter |
| ViewModel.WhereKeepsOrder | Bitacora/ViewModels/RegistroViewModel.cs:226 | filtering by a state keeps the list order: the view is a subsequence of the list |
| ViewModel.WhereMembers | Bitacora/ViewModels/RegistroViewModel.cs:226 | filtering by a state shows exactly the listed registros in that state |
| ViewModel.FirstById | Bitacora/ViewModels/RegistroViewModel.cs:36 | `FirstOrDefault` by id finds the first listed registro with the id, and nothing only when none has it |
| ViewModel.FirstEnProceso | Bitacora/ViewModels/RegistroViewModel.cs:171 | `FirstOrDefault` by state finds the first listed registro in progress, and nothing only when none is |
| ViewModel.Refrescar | Bitacora/ViewModels/RegistroViewModel.cs:207-228 | recomputing the counters and the view keeps the view model's invariant |
| ViewModel.FiltrarStep | Bitacora/ViewModels/RegistroViewModel.cs:217-228 | filtering keeps the view model's invariant |
| ViewModel.ReanudarStep | Bitacora/ViewModels/RegistroViewModel.cs:169-203 | the auto-resume keeps the view model's invariant |
| ViewModel.CargarStep | Bitacora/ViewModels/RegistroViewModel.cs:161-205 | loading a list keeps the view model's invariant |
| ViewModel.PausarAsWritten | Bitacora/ViewModels/RegistroViewModel.cs:380-429 | the pause as written keeps the view model's invariant |
| ViewModel.PausarStep | Bitacora/ViewModels/RegistroViewModel.cs:380-429 | the corrected pause keeps the view model's invariant |
| ViewModel.PausarOtros | Bitacora/ViewModels/RegistroViewModel.cs:297-317 | pausing the others keeps the arena's size |
| ViewModel.ActivarStep | Bitacora/ViewModels/RegistroViewModel.cs:296-337 | pausing the others and activating the registro keeps the view model's invariant |
| ViewModel.MarcarStep | Bitacora/ViewModels/RegistroViewModel.cs:319-337 | activating the registro keeps the view model's invariant |
| ViewModel.IniciarStep | Bitacora/ViewModels/RegistroViewModel.cs:284-375 | a start keeps the view model's invariant; a missing or closed registro changes nothing; otherwise the started registro is active and timed from its own current time, after the running clock was paused with the corrected pause of Finding B (see Left out) |
| ViewModel.CerrarStep | Bitacora/ViewModels/RegistroViewModel.cs:431-467 | a close keeps the invariant, saves a registro exactly when one was fetched, and changes nothing when none was |
| ViewModel.EstadoRecibido | Bitacora/ViewModels/RegistroViewModel.cs:31-79 | a received state keeps the invariant, and one for an unlisted id changes nothing |
| ViewModel.SetTiempo | Bitacora/ViewModels/RegistroViewModel.cs:392-401 | writing one registro's time changes only that registro, and only its time |
| ViewModel.TickStep | Bitacora/ViewModels/RegistroViewModel.cs:51-64 | a timer tick writes only times and keeps everything else |
| ViewModel.Ticks | Bitacora/ViewModels/RegistroViewModel.cs:346-361 | any run of ticks keeps the view model's invariant |
| ViewModel.PausarOtrosSpec | Bitacora/ViewModels/RegistroViewModel.cs:297-317 | pausing the others only moves registros in progress to paused, leaves objects outside the list alone, and leaves no listed registro in progress but the one being started |
| ViewModel.IniciarUnSoloEnCurso | Bitacora/ViewModels/RegistroViewModel.cs:284-375 | after starting an open registro it is active, in progress and timed, the list is the same, and every listed registro in progress carries its id |
| ViewModel.ActivarUnSoloEnCurso | Bitacora/ViewModels/RegistroViewModel.cs:296-337 | after the activation the registro is active, in progress and timed, and every listed registro in progress carries its id |
| ViewModel.AtMostOneWithId | Bitacora/ViewModels/RegistroViewModel.cs:211 | with distinct ids, registros in a state that all carry one id are at most one |
| ViewModel.IniciarAtMostOne | Bitacora/ViewModels/RegistroViewModel.cs:284-337 | when the listed registros have distinct ids before a start, at most one of them is in progress after it, and the in-progress counter says so |
| ViewModel.IniciarKeepsIds | Bitacora/ViewModels/RegistroViewModel.cs:284-337 | a start keeps the list and changes the id of no registro in it |
| ViewModel.PausaDetiene | Bitacora/ViewModels/RegistroViewModel.cs:380-429 | a pause leaves the active registro, and the first listed one with its id, paused with the start time plus the elapsed seconds; the clock stops, nothing is active and no other object changes |
| ViewModel.TicksKeep | Bitacora/ViewModels/RegistroViewModel.cs:346-361 | ticks write times only: list, active registro, clock and start time stay |
| ViewModel.PausaDesdeBase | Bitacora/ViewModels/RegistroViewModel.cs:380-421 | from a timed state, any ticks and then a pause record the start time plus the elapsed seconds |
| ViewModel.PausaTrasTicks | Bitacora/ViewModels/RegistroViewModel.cs:284-421 | however many ticks ran since a start, the pause records the time the registro had when started plus the seconds elapsed |
| ViewModel.PausaCuentaDoble | Bitacora/ViewModels/RegistroViewModel.cs:382-401 | as written, a registro at 100 s started, ticked once at 10 s and paused at 10 s records 120 where the corrected pause records 110 |
| ViewModel.CargarLista | Bitacora/ViewModels/RegistroViewModel.cs:161-164 | the loaded list is exactly the fetched registros, as new objects, and the old objects and the filter stay |
| ViewModel.CargarConserva | Bitacora/ViewModels/RegistroViewModel.cs:167-169 | a load keeps an existing active registro and its clock |
| ViewModel.CargarBusca | Bitacora/ViewModels/RegistroViewModel.cs:171 | the registro to resume is looked up in the fetched list itself |
| ViewModel.CargarReanuda | Bitacora/ViewModels/RegistroViewModel.cs:167-203 | with nothing active a load resumes a registro exactly when a fetched one is in progress |
| ViewModel.CargarReanudaPrimero | Bitacora/ViewModels/RegistroViewModel.cs:169-199 | the resumed registro is the first fetched one in progress, timed from its stored time |
| ViewModel.CerrarGuarda | Bitacora/ViewModels/RegistroViewModel.cs:431-451 | closing saves the fetched registro closed at the given time, adding the seconds since the start only when it is the active, timed registro, which then stops being active; any other active registro stays |
| ViewModel.EstadoRecibidoActualiza | Bitacora/ViewModels/RegistroViewModel.cs:36-40 | a state received for a listed id goes to the first listed registro with that id, and no other object changes |
| ViewModel.EstadoRecibidoReloj | Bitacora/ViewModels/RegistroViewModel.cs:42-73 | for the active registro's id, "in progress" starts the clock when none runs and any other state stops it; for any other id the clock stays |
| ViewModelClass.ContarEstados | Bitacora/ViewModels/RegistroViewModel.cs:207-215 | the one-pass count equals the five per-state counts and the total |
| ViewModelClass.Seleccionar | Bitacora/ViewModels/RegistroViewModel.cs:226 | the loop collects exactly the listed registros in the state, in order |
| ViewModelClass.PausarOtrosEnLista | Bitacora/ViewModels/RegistroViewModel.cs:297-317 | the loop pauses exactly what the specification of pausing the others says |
| ViewModelClass.RegistroViewModel.constructor | Bitacora/ViewModels/RegistroViewModel.cs:26-29 | a new view model has nothing loaded, nothing active and no filter |
| ViewModelClass.RegistroViewModel.ActualizarContadores | Bitacora/ViewModels/RegistroViewModel.cs:207-215 | only the counters change, to the counts of the list |
| ViewModelClass.RegistroViewModel.FiltrarPorEstado | Bitacora/ViewModels/RegistroViewModel.cs:217-228 | the filter and the view change as the filter specification says |
| ViewModelClass.RegistroViewModel.Refrescar | Bitacora/ViewModels/RegistroViewModel.cs:207-228 | the counters and the view are recomputed |
| ViewModelClass.RegistroViewModel.ActualizarListaRegistros | Bitacora/ViewModels/RegistroViewModel.cs:161-205 | the object state after a load is the one the load specification gives |
| ViewModelClass.RegistroViewModel.Reanudar | Bitacora/ViewModels/RegistroViewModel.cs:167-203 | the object state after the auto-resume is the one its specification gives |
| ViewModelClass.RegistroViewModel.HandleStatusUpdate | Bitacora/ViewModels/RegistroViewModel.cs:31-79 | the object state after a received state is the one its specification gives |
| ViewModelClass.RegistroViewModel.PausarRegistro | Bitacora/ViewModels/RegistroViewModel.cs:380-429 | the object state after a pause is the one the corrected pause of Finding B gives (see Left out) |
| ViewModelClass.RegistroViewModel.IniciarRegistro | Bitacora/ViewModels/RegistroViewModel.cs:284-375 | the object state after a start is the one `ViewModel.IniciarStep` gives, whose pause is the corrected one of Finding B (see Left out) |
| ViewModelClass.RegistroViewModel.Activar | Bitacora/ViewModels/RegistroViewModel.cs:296-337 | the object state after the activation is the one its specification gives |
| ViewModelClass.RegistroViewModel.Marcar | Bitacora/ViewModels/RegistroViewModel.cs:319-337 | the object state after marking the registro active is the one its specification gives |
| ViewModelClass.RegistroViewModel.CerrarRegistro | Bitacora/ViewModels/RegistroViewModel.cs:431-467 | the object state and the saved registro after a close are the ones the close specification gives |
| ViewModelClass.RegistroViewModel.Tick | Bitacora/ViewModels/RegistroViewModel.cs:51-64 | the object state after a tick is the one the tick specification gives |
| Asignaciones.Grupo | Bitacora/Views/AsignacionesView.xaml.cs:55-60 | the group is 0 exactly for registros in progress, 2 exactly for pending ones and 1 for every other state |
| Asignaciones.RefrescarAsignaciones | Bitacora/Views/AsignacionesView.xaml.cs:54-64 | the board lists the same registros, ordered by the four-part key |
| Asignaciones.KeyLeFour | Bitacora/Views/AsignacionesView.xaml.cs:55-63 | one comparison of keys decides group first, then priority, then remaining time, then creation date |
| Asignaciones.GruposEnOrden | Bitacora/Views/AsignacionesView.xaml.cs:55-60 | registros in progress come first and pending ones last |
| Asignaciones.PrioridadEnGrupo | Bitacora/Views/AsignacionesView.xaml.cs:61 | within a group the higher priority level comes first |
| Asignaciones.DesempateEnGrupo | Bitacora/Views/AsignacionesView.xaml.cs:62-63 | remaining ties go to the smaller remaining time, then to the earlier creation date |
| Asignaciones.EmpatesEstables | Bitacora/Views/AsignacionesView.xaml.cs:54-64 | registros equal on all four criteria keep the order they have in the view model's list |
| Asignaciones.OrdenadoSeQueda | Bitacora/Views/AsignacionesView.xaml.cs:54-64 | a list already in board order is shown as it is |
| TiempoEstimado.TiempoEstimadoWindow.constructor | Bitacora/Views/TiempoEstimadoWindow.xaml.cs:13-19 | the dialog opens with the estimate's whole hours and the minutes left over, nothing saved and no result |
| TiempoEstimado.TiempoEstimadoWindow.Guardar | Bitacora/Views/TiempoEstimadoWindow.xaml.cs:33-45 | the total is hours times 3600 plus minutes times 60, in 32-bit arithmetic, with unparsable boxes as 0; from 300 seconds up the dialog closes with a positive result, below it stays open |
| TiempoEstimado.TiempoEstimadoWindow.Cancelar | Bitacora/Views/TiempoEstimadoWindow.xaml.cs:48-52 | the dialog closes with a negative result and nothing else changes |
| TiempoEstimado.TiempoEstimadoWindow.BtnIncreaseHours | Bitacora/Views/TiempoEstimadoWindow.xaml.cs:60-65 | only the hours box changes, to one more hour (from 0 when it does not parse) |
| TiempoEstimado.TiempoEstimadoWindow.BtnDecreaseHours | Bitacora/Views/TiempoEstimadoWindow.xaml.cs:67-75 | only the hours box changes, to one hour less when it holds a positive count |
| TiempoEstimado.TiempoEstimadoWindow.BtnIncreaseMinutes | Bitacora/Views/TiempoEstimadoWindow.xaml.cs:77-87 | five more minutes, carrying an hour at 60 |
| TiempoEstimado.TiempoEstimadoWindow.BtnDecreaseMinutes | Bitacora/Views/TiempoEstimadoWindow.xaml.cs:89-99 | five fewer minutes; below 0 the minutes become 55 and an hour goes when there is one |
| TiempoEstimado.AperturaSeLee | Bitacora/Views/TiempoEstimadoWindow.xaml.cs:13-45 | a non-negative estimate opens as whole hours and 0..59 minutes that parse back, and saving it unchanged gives it back rounded down to the minute |
| TiempoEstimado.GuardarMinimo | Bitacora/Views/TiempoEstimadoWindow.xaml.cs:35-40 | for boxes with at most 596522 hours and 0..59 minutes the total is exact, and the dialog accepts it exactly when it is five minutes or more |
| TiempoEstimado.MinutosMasSuma | Bitacora/Views/TiempoEstimadoWindow.xaml.cs:77-87 | from h hours and m minutes (0..59) the boxes read five minutes more, with the minutes again in 0..59 |
| TiempoEstimado.MinutosMenosResta | Bitacora/Views/TiempoEstimadoWindow.xaml.cs:89-99 | from five minutes up five are subtracted; below five the minutes become 55 and the hours drop by one when positive, so 0 h 0 min becomes 0 h 55 min |
| TiempoEstimado.HorasMenosNoNegativo | Bitacora/Views/TiempoEstimadoWindow.xaml.cs:67-75 | the hour decrement never goes below 0 |
| TiempoEstimado.HorasIdaYVuelta | Bitacora/Views/TiempoEstimadoWindow.xaml.cs:60-75 | one hour up then one down gives the hours back |
| TiempoEstimado.MinutosIdaYVuelta | Bitacora/Views/TiempoEstimadoWindow.xaml.cs:77-99 | five minutes up then five down gives the boxes back, below 55 minutes |
| TiempoEstimado.FiltroDeDigitos | Bitacora/Views/TiempoEstimadoWindow.xaml.cs:54-58 | typed text is rejected exactly when it holds a character that is not a digit |
| PasswordHasher.Int32Bytes | BitacoraApi/Security/PasswordHasher.cs:23 | `BitConverter.GetBytes` of an Int32 is four bytes |
| PasswordHasher.Int32BytesRoundTrip | BitacoraApi/Security/PasswordHasher.cs:23-40 | reading back the four bytes written for an iteration count gives the count |
| PasswordHasher.ToInt32RoundTrip | BitacoraApi/Security/PasswordHasher.cs:40 | reading four bytes as an Int32 and writing it back gives the same bytes |
| PasswordHasher.VerifyBytes | BitacoraApi/Security/PasswordHasher.cs:30-50 | fewer than 53 bytes or a version other than 0x01 fail; a count of 0 or less is refused as out of range; otherwise the password verifies exactly when the key derived with the stored salt and count equals the stored key |
| PasswordHasher.CopyTo | BitacoraApi/Security/PasswordHasher.cs:23-26 | the bytes land at the offset and nothing else in the array changes |
| PasswordHasher.BlockCopy | BitacoraApi/Security/PasswordHasher.cs:42-44 | the array receives exactly the requested slice |
| PasswordHasher.Hash | BitacoraApi/Security/PasswordHasher.cs:12-28 | the hash is the encoding of version 0x01, the iteration count 100000, the salt and the 32-byte key derived from them |
| PasswordHasher.Verify | BitacoraApi/Security/PasswordHasher.cs:30-50 | the decision is the one the byte-level verification gives for the decoded bytes |
| PasswordHasher.LayoutFields | BitacoraApi/Security/PasswordHasher.cs:21-26 | the stored form is 53 bytes: version 0x01, then the count, then the salt at 5..21, then the key at 21..53 |
| PasswordHasher.VerifyUsesStoredLayout | BitacoraApi/Security/PasswordHasher.cs:30-50 | a stored form is checked with the count it stores, whatever the current constant, and bytes after the 53rd play no part |
| PasswordHasher.VerifyIgnoresTrailing | BitacoraApi/Security/PasswordHasher.cs:33-47 | bytes after index 52 do not change the decision |
| PasswordHasher.HashThenVerify | BitacoraApi/Security/PasswordHasher.cs:12-50 | a password verifies against its own hash, and another one exactly when it derives the same key from that salt |
| PasswordHasher.HashVerifies | BitacoraApi/Security/PasswordHasher.cs:12-50 | hashing and then verifying the same password succeeds |

## Left out

- The WebSocket transport is not modelled: connection set-up, frame parsing, the client's receive loop, and the reconnect loop with its `Task.Delay` back-off and retry count. Messages reach the relay as already-parsed JSON values, and sending appends to an outbox.
- JSON values are restricted to integral numbers, strings, booleans, null and undefined. Nested objects, arrays and fractional numbers do not occur in the modelled messages.
- Real timers are explicit steps. This covers `setTimeout`, `setInterval`, `DispatcherTimer` and `DateTime.Now`. The grace check and the heartbeat tick are methods called by the caller. Elapsed seconds and the current time are parameters.
- Concurrency, fire-and-forget calls and `Task.WhenAll` are not modelled. Each event handler runs to completion as one method.
- SQL, ADO.NET connections and transactions are not modelled. Tables are values handed in and handed back. The SQL `CASE` roll-up of sub-registro states is left to the database. Name matching under the database collation is exact or ignore-case equality.
- The file system, HTTP and the request are parameters rather than behaviour. This covers `HttpClient`, multipart bodies, `File.Exists`, `FileInfo.Length`, `Path.GetFullPath`, `Uri.TryCreate` and the request's scheme, host and base path.
- PBKDF2, the random number generator and Base64 are functions passed in. The constant-time property of `CryptographicOperations.FixedTimeEquals` is not captured; only its result is. `BitConverter` is taken to be little-endian.
- Exceptions are `Option` or outcome values. Catch-all handlers become the error branch they lead to.
- Floating-point output is not modelled. The size converter's "MB" text is left as the byte count it is computed from, and the progress bar and `MathConverter` are left out.
- The numeric and comma-separated forms that `Enum.TryParse` also accepts are not modelled; only the enumeration names parse.
- WPF controls, bindings, layout, message boxes, toasts (`ShowNotification`) and the list view's display rule that shows pending items as waiting are not modelled.
- `RegistroViewModel.AsignarRegistroAsync`, `CrearRegistroAsync`, `ActualizarRegistroAsync` and `ReenviarNotificacionAsync` are left out. They are API round trips and notification sends with no local state beyond a reload, and the reload itself is modelled. The payload of `SendAssignmentAsync` is left out for the same reason.
- `TareaRegistro` is a value tree. There are no `Parent` back references and no `PropertyChanged` cascade from children (`Child_PropertyChanged`). The deferred `Dispatcher.BeginInvoke` and the `_isSorting` and `_isUpdatingAggregates` re-entrancy guards are not modelled. A change to a task returns the new tree, so updates in place and aliasing between tasks are not captured.
- PublicUrls.MapRegistro: models `MapLocalPathsToPublicUrls` by returning the rewritten registro instead of changing the DTO in place.
- The edit form's dialogs, file pickers, focus handling and drag-and-drop are left out. The parts modelled are the field loading, the task ordering, the steppers, the digit filter and the task-button guards.
- `TiempoEstimado.TiempoEstimadoWindow.Guardar` does not model the message box shown below five minutes; the dialog simply stays open.
- DbService.MapToTareaList: builds each task with the corrected `DbService.MapToTarea` of Finding A, so a child sits one level below its parent. The source as written (`DbService.MapToTareaAsWritten`) puts every descendant at level 1.
- DbService.MapToRegistro: loads the tasks through the corrected `DbService.MapToTareaList`. For a grandchild task its levels differ from the source as written, as Finding A describes.
- ViewModel.IniciarStep: pauses the running clock with the corrected `ViewModel.PausarStep` of Finding B. The source's `IniciarRegistroAsync` calls the pause as written (`ViewModel.PausarAsWritten`), which counts the elapsed seconds twice for the registro it pauses.
- ViewModelClass.RegistroViewModel.PausarRegistro: follows the corrected pause `ViewModel.PausarStep` of Finding B, not the pause as written.
- ViewModelClass.RegistroViewModel.IniciarRegistro: follows `ViewModel.IniciarStep`, so its pause of the running clock is the corrected one of Finding B.
- Strings.GetFileName: the only path root recognised is a drive root such as `C:`. UNC roots (`\\server\share`) and device roots (`\\?\`) are not, so for `\\server\share` the model names `share` where .NET gives an empty name. Both `\` and `/` separate directories, as on Windows.
- Strings.ToUpper, Strings.ToLower and Strings.EqualsIgnoreCase fold the ASCII letters only. .NET's invariant and ordinal ignore-case folding also maps other letters, for instance 'é' (U+00E9) to 'É' (U+00C9). So `FormView.PrioridadRadio`, `Registros.PrioridadNivel`, `Registros.ParseEstadoName`, `Registros.ParseTipoName`, `Repository.DistinctIgnoreCase` and the image-extension test can differ from the source on non-ASCII text.
- Repository.InsertOf and `Repository.UpdateOf` leave out the `fRegistro` and `fAsignacionTiempo` columns, which the source sets to the clock (`DateTime.Now`). The `?? ""` and `?? "Pendiente"` defaults of the insert never apply, because strings in the model are never null.
- Tasks.UpdateParentAggregates: the `OverflowException` of LINQ's checked `Sum` is not raised. When the children's total leaves the 32-bit range, the model keeps the dates already written and the old estimate, and carries on.

## Findings

| source | as written | input that shows it | evidently intended | confidence | as-written member | corrected member |
|---|---|---|---|---|---|---|
| Bitacora/Services/DatabaseService.cs:332-362 | `MapToTareaList` adds each task's children while that task is still at level 0, because its own level is set only later, when it is added to its parent; so every child gets level 1, and grandchildren also end up at level 1 | a registro whose task has a sub-task that has its own sub-task: the grandchild is loaded at level 1, so the form's two-level limit (RegistroFormView.xaml.cs:693) lets a fourth level be added under it | each child one level below its parent, as when tasks are added in the form | not executed | DbService.MapToTareaAsWritten, DbService.AsWrittenLevelsBroken | DbService.MapToTarea, DbService.LoadKeepsLevels, DbService.MapToTareaList, DbService.MapToRegistro |
| Bitacora/ViewModels/RegistroViewModel.cs:382-401 | pausing adds the elapsed seconds to the active registro's `TiempoTranscurrido`, which the timer tick has already set to the base time plus the elapsed seconds | a registro at 100 s is started, the timer ticks at 10 s and it is paused at 10 s: it is stored with 120 s instead of 110 s | the paused time is the base time plus the elapsed seconds, counted once | not executed | ViewModel.PausarAsWritten, ViewModel.PausaCuentaDoble | ViewModel.PausarStep, ViewModel.PausaTrasTicks, ViewModel.IniciarStep, ViewModelClass.RegistroViewModel.PausarRegistro, ViewModelClass.RegistroViewModel.IniciarRegistro |
