# WhatsApp CRM core, modelled in Dafny

`index.js` is a single Express server that connects to WhatsApp through
Baileys and keeps a small CRM in SQLite: a `clientes` table (one row per
chat address, with a label, an archived flag, a note and the time of the
last interaction) and a `mensajes` table (every message received or sent).
This project models the deterministic rules under the HTTP, database and
socket plumbing, and proves what they guarantee:

- `store.dfy` (`Store`): the two tables as a class `ContactStore` whose
  methods change them in place. Covered: the upsert done on every inbound
  message (`actualizarCliente`), insert-if-absent for chat sync and for
  contact import, the edits by address (label and archived flag, note,
  name), and the delete that cascades to the address's messages. Also the
  selection of bulk-send targets and the segment query builder. Each
  method is specified by a function of the table's contents.
- `importer.dfy` (`Import`): the two `POST /subir-contactos` handlers.
  - The served one at line 132 finds digit runs, keeps runs of 10 or more
    digits, prefixes `52` to 10-digit numbers, appends `@s.whatsapp.net`
    and de-duplicates with a `Set`.
  - The shadowed one at line 1026 reads `.txt` or `.csv` files and
    normalises each number, reporting a detail per number.
- `inbound.dfy` (`Inbound`): the `messages.upsert` handler. It drops
  self-sent and empty events, classifies media with priority
  audio > image > video > document > text, and builds the message row
  (caption default, attachment path, media flag). It then refreshes the
  contact and overwrites the single notification slot with a preview of
  at most 100 characters.
- `dispatch.dfy` (`Dispatch`): the sequential bulk-send loops of
  `/enviar-lista-contactos` (line 1168), `/enviar-masivo`,
  `/enviar-masivo-estado` and `/enviar-masivo-variantes`. Also their
  request validation, the campaign lookup with its `es` fallback, the
  random variant choice, the `{agente}` replacement and the random pause.
- `session.dfy` (`Session`): what a `connection.update` event causes. A
  close with status 401 stops. Any other close reconnects after 5000 ms.
  A failed start retries after 10000 ms.
- `upload.dfy` (`Upload`): multer's storage rules. The MIME prefix picks
  the folder and the file prefix. The stored name is
  `<prefix>_<timestamp><extension>`, the extension being POSIX
  `path.extname` of the original name.
- `text.dfy` (`Text`) and `wrappers.dfy` (`Wrappers`): the JavaScript
  string operations the rules use, and `Option`/`Result`. Covered: `||` on
  strings (the empty string is falsy), ASCII `\d` and `\w`, `trim`,
  `split`, global `replace` with its `$` patterns, first-occurrence `replace`, and number formatting.

Things outside the program become parameters:
- `sock.sendMessage` is an oracle `outcome(i)` for the i-th send of a loop.
- `Math.random()` is an oracle of reals in [0, 1).
- `Date.now()` is a natural number, and `new Date().toISOString()` is a
  date string.
- Whether a media download succeeds is a boolean, and so is whether
  writing the downloaded file succeeds.
- The waits a loop performs are returned as the list of their durations.
- Whether the socket exists is a boolean `connected`.

Behaviours worth knowing, modelled as the code has them:
- An edit on an unknown address is a silent no-op: `UPDATE` matches no row
  and the handler still answers `ok`. No "not found" error is raised.
- The list and variant loops pause after every successful send, the last
  one included, and never after a failure.
- The awaited list loop at line 1168 does not create contacts for the
  numbers it sends to.
- Deleting a contact deletes that address's messages even when no contact
  row existed.
- `/enviar-masivo` and `/enviar-masivo-estado` do not validate `mensaje`.

## Model

| member | source | states |
|---|---|---|
| Store.LabelFor | index.js:656 | a new contact's label is `grupos` exactly when the address ends in `@g.us`, otherwise `nuevo` |
| Store.Insert | index.js:720-741 | a lookup-guarded insert: a present address leaves the table unchanged; an absent one adds exactly that row at the end of the row order |
| Store.InsertAllKeepsRows | index.js:713-742 | a run of guarded inserts never changes an existing row and only appends to the row order |
| Store.InsertAllCovers | index.js:713-742 | after a run of guarded inserts the addresses are the old ones plus the requested ones, nothing more |
| Store.InsertAllFirstWins | index.js:1100-1141 | a row created by a run of inserts holds the first request for its address; later requests for it are ignored |
| Store.Upserted | index.js:648-681 | a new address gets one contact labelled `grupos`/`nuevo`, archived 0, empty note, with the given name and time; an existing one gets only its name and time refreshed; no other contact changes |
| Store.Removed | index.js:1469 | the address's row is gone and every other row is unchanged |
| Store.Purged | index.js:1476 | exactly the messages of other addresses remain |
| Store.PurgedAppend | index.js:1476 | a log split in two is purged part by part, so the remaining messages keep their order and multiplicity |
| Store.PurgedOne | index.js:1476 | a single message is deleted exactly when it belongs to the address |
| Store.FilterRows | index.js:1582-1596 | the addresses kept are exactly the listed ones whose contact passes the filter |
| Store.SelectRows | index.js:1516-1526 | the targets are exactly the stored non-archived contacts (with one of the labels, when labels are given), each once |
| Store.AlternativesPlaceholders | index.js:1574-1578 | the alternatives for n labels hold n placeholders |
| Store.SegmentQueryPlaceholders | index.js:1571-1580 | the segment query holds one `?` per label |
| Store.BuildSegmentQuery | index.js:1571-1580 | the loop builds the head, the labels' `etiqueta=?` joined by ` OR `, and `)`, with the labels as parameters in order and as many placeholders as parameters |
| Store.ChatEntryRow | index.js:713-718 | the row for a synced chat is keyed by the chat id, named by `name`, else `subject`, else `Sin nombre` (empty strings counting as absent), labelled `grupos` exactly for `@g.us` addresses, not archived, with an empty note and the sync time |
| Store.ChatEntries | index.js:713-742 | one insert request per chat synced |
| Store.ChatEntriesInOrder | index.js:713-718 | the i-th insert request of chat sync is the i-th chat's, so requests follow chat order |
| Store.ContactStore.constructor | index.js:44-65 | both tables start empty |
| Store.ContactStore.LogMessage | index.js:634-646 | one message row is appended; contacts are unchanged |
| Store.ContactStore.Upsert | index.js:648-681 | the table becomes `Upserted` of the old one; messages are unchanged |
| Store.ContactStore.InsertIfAbsent | index.js:720-741 | the table becomes `Insert` of the old one; the result says whether the address was absent |
| Store.ContactStore.SyncChats | index.js:703-749 | without a chat store nothing changes; otherwise the table becomes the guarded inserts of every chat in order |
| Store.ContactStore.SetStatus | index.js:1346-1362 | only the label and archived flag of the address change; an unknown address changes nothing |
| Store.ContactStore.SetNote | index.js:1378-1393 | only the note of the address changes; an unknown address changes nothing |
| Store.ContactStore.Rename | index.js:1398-1421 | only the name of the address changes, and the change count is 1 exactly when the address exists |
| Store.ContactStore.Delete | index.js:1466-1485 | the row is removed and the messages become `Purged` of the old ones: every message of that address is deleted, the others kept in order (`PurgedAppend`) |
| Import.FormatDigits | index.js:1093-1098 | the address ends in `@s.whatsapp.net`, preceded by the digits with `52` prefixed when there are exactly 10, all digits and at least 11 of them |
| Import.Normalize | index.js:1081-1098 | the number is rejected exactly when it has fewer than 10 digits; otherwise it is the formatted address of its digits |
| Import.NormalizeShape | index.js:1081-1098 | an accepted number is its digits (with `52` when there were exactly 10) followed by the suffix |
| Import.NormalizeIdempotent | index.js:1081-1098 | normalising an address normalisation produced gives the same address back |
| Import.ImportedNameIsDigits | index.js:183 | removing the suffix from an imported address leaves exactly its digits, so the new contact's name is the number |
| Import.DigitRunsOf | index.js:145-149 | every run found, line after line, is made of digits only |
| Import.AcceptedAreAddresses | index.js:151-158 | every address kept from runs of at least 10 digits ends in `@s.whatsapp.net` |
| Import.DedupDistinct | index.js:146-163 | the de-duplicated list has no repetition and the same elements as its input |
| Import.DedupFirstSeen | index.js:146-163 | first-seen order: what the list holds after a prefix of the input stays in front and in place, and later input only appends addresses that prefix did not hold |
| Import.DistinctCardinality | index.js:163 | a list without repetition has as many elements as its set |
| Import.AddRunStep | index.js:151-158 | a run shorter than 10 digits changes nothing; a longer one adds its address at the end unless the set already holds it |
| Import.AddRuns | index.js:149-159 | after a line's runs the list is the de-duplication of every accepted run seen so far, in first-seen order |
| Import.AddLineNumbers | index.js:148-160 | after the i-th line the list is the de-duplication of the accepted runs of the first i+1 lines |
| Import.ExtractUniqueNumbers | index.js:145-163 | the loop over the lines yields every accepted address of the file once, in first-seen order |
| Import.UniqueNumbers | index.js:145-163 | the extracted list has no duplicates, holds exactly the formatted numbers of the file, and its length is their number of distinct values |
| Import.UniqueEntries | index.js:179-188 | one insert request per address, named by the address without its suffix, label `nuevo` |
| Import.LowerAscii | index.js:1033 | the lowered extension has the same length, every upper-case ASCII letter becomes its lower-case partner, every other character is unchanged, and no upper-case ASCII letter remains |
| Import.LowerAsciiIdempotent | index.js:1033 | lowering twice is lowering once |
| Import.ReadNumbers | index.js:1033-1071 | numbers are read exactly for the extensions `.txt` and `.csv` in any letter case; for `.txt` the numbers read are exactly the non-empty trimmed lines of the content split at `\n`, for `.csv` exactly the 10-to-15-digit words of its non-blank trimmed lines |
| Import.ReadNumbersIgnoresCase | index.js:1033-1055 | lowering the extension first reads the same numbers |
| Import.InsertUnique | index.js:169-207 | every address is inserted if absent and the rest are left alone; `nuevos + existentes` is the number of addresses and the table grows by `nuevos` |
| Import.TxtNumbers | index.js:1047-1051 | a value is read exactly when it is some line, trimmed and non-empty; every value is non-empty and there are no more values than lines |
| Import.TxtNumbersAppend | index.js:1047-1051 | reading two runs of lines gives the first run's values followed by the second's, so line order and repetitions are kept |
| Import.TxtNumbersOne | index.js:1049-1050 | one line gives its trimmed text, or nothing when it is blank |
| Import.Filter | index.js:1064 | a word is kept exactly when it is made of 10 to 15 digits |
| Import.CsvNumbers | index.js:1055-1066 | every number the `.csv` reader yields is 10 to 15 digits |
| Import.CsvNumbersMembers | index.js:1058-1066 | a word is read exactly when it is a 10-to-15-digit word of some non-blank trimmed line |
| Import.CsvNumbersAppend | index.js:1058-1066 | reading two runs of lines gives the first run's numbers followed by the second's, so line order and repetitions are kept |
| Import.CsvNumbersOne | index.js:1060-1065 | a blank line gives nothing; any other line gives the 10-to-15-digit words `Filter` keeps from the word runs of its trimmed text |
| Import.CsvNumbersNormalize | index.js:1064 | every number read from a `.csv` passes normalisation |
| Import.Tally | index.js:1036-1042 | the counters `nuevos`, `existentes` and `errores` add up to the number of details |
| Import.StepReports | index.js:1079-1142 | one number yields one detail: an error carrying the number as read exactly when it has fewer than 10 digits, otherwise its address; the table changes only for a `nuevo` detail, by appending that absent address |
| Import.ImportRun | index.js:1078-1148 | the loop over the numbers read keeps every address in the table unique |
| Import.ImportRunInserts | index.js:1100-1141 | the table after the loop is the guarded inserts of the accepted numbers, in order |
| Import.ImportRunDetails | index.js:1078-1148 | one detail per number read, in order, each reporting its own number |
| Import.ImportRunGrowth | index.js:1112-1141 | the table grows by exactly the number of `nuevo` details |
| Import.ImportOne | index.js:1079-1142 | one number read changes the table and yields the detail exactly as the import step says |
| Import.ImportNumbers | index.js:1075-1148 | the loop's table and details are those of `ImportRun`, `total` is the number read, and the counters are the tally of the details |
| Import.UploadContacts | index.js:132-228 | without a file the request is refused and nothing changes; otherwise the unique addresses of the file are inserted if absent, and the summary reports `total` as their count, `nuevos` as exactly the number of rows added, `existentes` as the rest and `errores` as 0 |
| Import.UploadContactFile | index.js:1026-1159 | no file or an extension other than `.txt`/`.csv` is refused with nothing changed; otherwise the numbers read go through the import loop, and the summary's `nuevos`, `existentes` and `errores` are the counts of new, existing and failed details (`Tally`) |
| Inbound.KindOf | index.js:452-476 | audio, then image, then video, then document, else text, each exactly when the earlier ones are absent |
| Inbound.TextOf | index.js:619-622 | `conversation`, else the extended text, else `(mensaje sin texto)`, empty strings counting as absent |
| Inbound.SubtypeOr | index.js:534 | the extension is never empty and has no slash |
| Inbound.SubtypeOfMime | index.js:567 | for `type/subtype` the extension is the subtype, or the fallback when that is empty or there is no slash |
| Inbound.StoredFileName | index.js:502-600 | the file is `audio_<now>.ogg`, `imagen_<now>.<subtype or jpg>`, `video_<now>.<subtype or mp4>`, or the document's `fileName`, else `documento_<now>` |
| Inbound.MediaRecord | index.js:488-611 | a media message leaves no row exactly when its download fails, an image or video lacks a MIME type, or the file write fails; otherwise the row is an incoming message of the sender with the event date, flag 1 and the file `<folder><stored name>`; the text is the caption or the notification text, which is `🎵 Audio` (MIME `audio/ogg`), `🖼️ Imagen`, `🎥 Video` (MIME as received) or `📄 <stored name>` for a document |
| Inbound.RecordOf | index.js:452-631 | a text message is always recorded with flag 0, no file and no MIME type, its text being both the row and the notification; a media message is recorded as `MediaRecord` says; every row is an incoming message of the sender |
| Inbound.IgnoredEvents | index.js:438-443 | empty events, self-sent messages and messages without a payload leave nothing |
| Inbound.Receive | index.js:436-481 | an event has an effect exactly when its first message is accepted and recorded; the effect names that sender, with `Desconocido` when there is no push name |
| Inbound.ReceivedRow | index.js:445-631 | a row left by an event is an incoming message from the sender with the event's date; a media row is exactly the one `MediaRecord` gives, with flag 1 and the stored file under its folder; a text row has flag 0, no file and no MIME type |
| Inbound.LostEvents | index.js:452-616 | an accepted event leaves nothing exactly when it is media whose download fails, an image or video without a MIME type, or media whose file write fails; text always lands |
| Inbound.NoticeFor | index.js:683-689 | the notification carries the sender, name and date, and the first at most 100 characters of the text |
| Inbound.Notifier.Publish | index.js:691-692 | each notification replaces the previous one |
| Inbound.OnMessagesUpsert | index.js:436-481 | an event with nothing to record changes nothing; otherwise one message row is logged, the sender is upserted and the notification slot holds its notice |
| Upload.PlacementOf | index.js:90-114 | audio when the MIME type starts with `audio/`, else image for `image/`, else video for `video/`, else a generic file |
| Upload.Folder | index.js:90-101 | every upload folder lies under `public/` and ends in a slash |
| Upload.Prefix | index.js:106-114 | every file-name prefix has at least five characters and no dot, slash or underscore |
| Upload.ExtName | index.js:105 | the extension is empty or a dot followed by neither dots nor slashes |
| Upload.StemHasNoDotOrSlash | index.js:116 | the part of a stored name before its extension has no dot and no slash |
| Upload.StoredName | index.js:103-117 | the stored name has no slash, opens with the placement's prefix and `_`, ends with the uploaded name's extension, and the digits in between read back as the timestamp |
| Upload.DistinctTimestampsDistinctNames | index.js:103-117 | uploads stored at different timestamps get different names, whatever their MIME types and original names |
| Upload.StoredPath | index.js:89-117 | the upload lands directly inside its placement's folder, under the stored name |
| Upload.StoredPathKeepsExtension | index.js:103-117 | the extension of the stored path is that of the uploaded name, which is what the import at line 1033 reads back |
| Dispatch.Successes | index.js:1190-1210 | there are never more successes than sends |
| Dispatch.Log | index.js:1192-1197 | one message row per successful send |
| Dispatch.Pauses | index.js:1203 | one wait per successful send |
| Dispatch.Details | index.js:1199-1207 | one detail per target |
| Dispatch.Preview | index.js:2035 | the preview is the first at most 50 characters followed by `...`: 3 characters longer than that prefix, ending in `...` |
| Dispatch.DetailsPerTarget | index.js:1190-1210 | the i-th detail is the i-th target's: `enviado` when its send succeeded, else its error; a failure does not stop later targets |
| Dispatch.LogOnlyDelivered | index.js:1192-1197 | a row is logged exactly when some target's send succeeded, and it carries that target and its text |
| Dispatch.AllFailedLogsNothing | index.js:1205-1209 | when every send fails there are no successes and no rows are logged |
| Dispatch.SendOne | index.js:1191-1208 | one send: on success the text is logged, the detail is `enviado` (with the preview when asked) and the pause is waited; on failure only the error is noted |
| Dispatch.SendEach | index.js:1190-1210 | the log grows by the delivered texts in order; `exitosos` counts successes and `exitosos + errores` the targets; one detail per target; the waits are the pauses of the successful iterations |
| Dispatch.SendToList | index.js:1186-1210 | the log grows by the delivered messages; `exitosos` counts successes and `exitosos + errores` is the number of targets; one detail per target; a 200 ms wait after each success |
| Dispatch.SendToRows | index.js:1523-1541 | the same for selected rows, without details, with a 100 ms wait after each success |
| Dispatch.VariantIndex | index.js:2017 | the drawn index lies in [0, number of variants) |
| Dispatch.PauseMs | index.js:2039 | the drawn pause lies in [1000, 61000) ms |
| Dispatch.Personalize | index.js:2020-2023 | the `includes` guard changes nothing: with a non-empty agent name the text is the variant after the global `replace`, `$` patterns in the name expanded; without one it is the variant |
| Dispatch.DollarAgentKeepsMark | index.js:2022 | an agent named `$&` leaves every `{agente}` in place, since the pattern stands for the match |
| Dispatch.PersonalizeReplacesAll | index.js:2020-2023 | with an agent name free of `$` the text is the variant with every `{agente}` replaced by the name, its length growing by the name's length less 8 per placeholder |
| Dispatch.ChosenTexts | index.js:2017-2023 | one chosen text per number |
| Dispatch.ChosenAt | index.js:2017-2023 | the i-th text is the variant drawn in iteration i, personalised |
| Dispatch.ChosenIsAVariant | index.js:2017-2023 | every text sent is one of the campaign's variants, personalised |
| Dispatch.PauseTimes | index.js:2039 | one drawn pause per iteration |
| Dispatch.PauseAt | index.js:2039 | the i-th pause is the one drawn in iteration i |
| Dispatch.PausesFromDelays | index.js:2039-2040 | every wait is one of the drawn pauses |
| Dispatch.VariantPausesBounded | index.js:2039-2040 | every wait of the variant loop lies in [1000, 61000) ms |
| Dispatch.SendVariants | index.js:2010-2047 | the log grows by the delivered personalised variants; the counters add up to the number of targets; one detail per target with the preview; the waits are the drawn pauses of the successful iterations |
| Dispatch.Key | index.js:2003-2004 | a field the request lacks is looked up under the property name `undefined` |
| Dispatch.Campaign | index.js:2003-2008 | a found campaign has at least one variant; otherwise the request is refused |
| Dispatch.UnknownLocaleFallsBack | index.js:2003 | a locale the catalogue lacks reads the `es` campaigns |
| Dispatch.CampaignFound | index.js:2003-2008 | the campaign is found exactly when the chosen locale has it with at least one variant |
| Dispatch.ListRejection | index.js:1172-1182 | a list request proceeds exactly when connected, with a non-empty list and a message that is not blank |
| Dispatch.SendListRequest | index.js:1168-1222 | a refused request changes nothing and waits for nothing; otherwise one detail per number, the counters add up, the log grows by the delivered messages and 200 ms is waited after each success |
| Dispatch.SendAllRequest | index.js:1509-1556 | without a connection nothing is sent and nothing waited; otherwise every non-archived contact is a target, the counters add up, the log grows by the delivered messages and 100 ms is waited after each success |
| Dispatch.SendSegmentRequest | index.js:1559-1626 | no connection, no labels or an empty selection are refused with nothing sent or waited; otherwise the targets are the non-archived contacts with one of the labels, the log grows by the delivered messages and 100 ms is waited after each success |
| Dispatch.SendVariantsRequest | index.js:1990-2063 | connection, numbers and campaign are checked before any send, and a refusal changes and waits for nothing; then one detail per number, the log grows by the delivered personalised variants and the drawn pause is waited after each success |
| Session.CloseDecision | index.js:411-419 | a close reports an invalid session exactly when the status is 401, and otherwise reconnects after 5000 ms |
| Session.OnUpdate | index.js:388-420 | a non-empty QR is published, `open` clears it and syncs chats, and `close` reconnects or reports by its status; the tests are independent |
| Session.OnStart | index.js:425-428 | a start that throws schedules a new start after 10000 ms, and only then |
| Session.RestartsOfOneUpdate | index.js:388-420 | one event schedules a reconnection exactly when it is a close whose status is not 401 |
| Session.OneRestartPerRecoverableClose | index.js:411-419 | over a run of events, reconnections are scheduled exactly once per close whose status is not 401 |
| Session.LoggedOutNeverRestarts | index.js:414-418 | when every close carries 401, nothing reconnects |
| Text.Trim | index.js:1049-1061 | the trimmed line is a slice of the line with only white space cut off at either end, it neither starts nor ends with white space, and it is empty exactly when the line is all white space |
| Text.Split | index.js:145 | `split` yields at least one piece and no piece holds the separator |
| Text.JoinSplit | index.js:145 | joining the pieces with the separator gives the text back |
| Text.ReplaceFirst | index.js:183 | without an occurrence the text is unchanged; with one, its length changes by the replacement's length less the pattern's |
| Text.NatToString | index.js:104 | the decimal text of a timestamp is non-empty and all digits |
| Text.ParseNatToString | index.js:104 | reading the decimal text of the timestamp back gives the timestamp |
| Text.ExpandPlain | index.js:2022 | a replacement string without `$` is inserted as it is |
| Text.JsReplaceAllPlain | index.js:2022 | for a replacement without `$`, the global `replace` is plain substitution of every non-overlapping occurrence |
| Text.JsReplaceAllByMatch | index.js:2022 | replacing by `$&` gives the text back |
| Text.ReplaceAllFromAbsent | index.js:2021-2022 | without an occurrence of the pattern, `replace` changes nothing |

## Left out

- SQLite and its callbacks are left out, including failing queries and inserts. The model awaits each lookup before the next statement. In the served import at line 169 the lookups actually run unawaited, and the 3 s wait at line 217 hopes they finish. In the model its `errores` is always 0.
- The served `/enviar-lista-contactos` body (lines 243-341) is not part of this model. It sends from unawaited database callbacks, so its counters and ordering cannot be stated. The awaited handler at line 1168 is modelled instead.
- The HTTP layer is left out: routing, status codes, JSON response shapes, multer streaming, the 50 MB limit and static files. Only the validation and the result values are kept.
- Socket creation, credential storage and the QR rendering are left out. The writes of `qr.json` and `notify.json` are reduced to the value they store. A media file write is reduced to whether it succeeds (see `Inbound.LostEvents` below).
- A media download is a boolean, not a byte stream.
- Inbound.LostEvents: whether `fs.writeFileSync` succeeds is the boolean `writeOk`, not derived from the file name. A document `fileName` naming a missing subfolder (`a/b.pdf`) makes the write throw and the handler's `catch` drop the event. Only a name with `..` components writes outside `public/archivos/`. The model records the stored name as given and does not track where on disk it lands.
- One date string stands for each request. Each send's `new Date()` is not told apart.
- `Math.random()` draws are oracles indexed by iteration. In the variant loop, the variant draw and the pause draw are two separate oracles. Because the i-th draws are fixed values, the model draws every text and pause before the shared send loop rather than inside it; the texts, waits and log are the same.
- `String.prototype.substring` counts UTF-16 code units; `Text.Take` counts characters, so previews of text outside the Basic Multilingual Plane may differ.
- Dispatch.PersonalizeReplacesAll: plain substitution and the length law are stated only for agent names without `$`. For any other name, `Dispatch.Personalize` states the text is `Text.JsReplaceAll`, which expands `$$`, `$&`, `` $` `` and `$'` as `replace` does.
- Import.LowerAscii: `toLowerCase` is modelled on ASCII letters only, which is all the `.txt` and `.csv` comparison needs.
- Session.OnUpdate: removing `public/qr.json` is assumed to succeed. If `fs.unlinkSync` throws, the handler's `catch` skips `sincronizarChats()` for that event; the model always syncs on `open`.
- Store.SelectRows: the targets come in insertion (rowid) order. The source's query has no `ORDER BY`; SQLite usually returns that order, but SQL does not promise it. The model's send order is therefore one possible order; which targets are sent to does not depend on it.
- Request fields that are not strings or lists are left out: a number as `mensaje`, a non-array `variantes`, object keys from the prototype chain. A missing field used as an object key is the key `undefined`.
- The dashboard metrics, CSV export, reminders, quick replies, profile photos, message listings and the campaign texts are left out. They are queries or data with no rules of their own.
