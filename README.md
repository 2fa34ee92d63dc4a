# LumberJack core, modelled in Dafny

LumberJack keeps a *forest* of nodes. Branch nodes hold children. Leaf nodes hold events: each
event is started or planned, collects timestamped entries while it is ongoing, and is then ended.
Users are assigned to nodes with permissions. Time tracking pairs start and end markers. Planned
and actual events can be compared, and attachments are stored by content hash.

Around that domain sit:

- the tree-shaped loggers and the server's reader of their log lines;
- the log paginator, the settings merge and the walk along a `/`-separated path;
- the command-line helpers that choose which server to kill or restart;
- the dashboard's cookie reader and its grouping of log records into blocks.

The repository also carries C++ prototypes of a key/value store:

- variant keys and values with their comparisons;
- a `KeyTree` with insert, search, remove and a level-order print;
- a `SetMap` from ordered key sets to value vectors;
- network nodes that hold values and connections.

It also carries the C growable arrays (`EXPAND_CAPACITY`) behind the older graph and network types.

Layout, one module per source file:

- `core.dfy`, `node_spec.dfy` hold the forest's data model and the specification functions of the
  event life cycle and user assignment.
- `node_fn.dfy`, `actions.dfy`, `node_get.dfy`, `logic.dfy`, `node_add.dfy`, `adders.dfy`,
  `attachment.dfy` hold the operations on a `Node` class whose fields the methods update.
- `logline.dfy` holds the log line format, its time stamps and the logger depth. `types_logger.dfy`
  and `internal_logger.dfy` hold the two loggers.
- `api_helpers.dfy`, `helpers.dfy`, `app.dfy`, `path_walk.dfy`, `cli.dfy` and `dashboard.dfy` hold
  the server, command-line and dashboard helpers.
- `key_type.dfy`, `value_type.dfy`, `cpp_types.dfy`, `key_cpp.dfy`, `heirarchy_key.dfy`,
  `value_cpp.dfy` and `alpha_value.dfy` hold the C++ variants.
- `keytree_spec.dfy` and `keytree.dfy` hold the tree. It is an arena: node handles are indices, and
  -1 stands for a null pointer.
- `setmap.dfy` holds the `SetMap`: a `std::map` of `std::set`s as a sorted sequence of entries.
- `networknode.dfy` and `heirarchy_networknode.dfy` hold the network nodes.
- `memory.dfy` and the `c_*.dfy` and `types_*.dfy` files hold the C arrays. Each keeps its buffer
  as an `array` that grows in place.

Inputs the code reads from its environment become parameters:

- the clock (`time.Now()`) is `now` or `stamp`;
- the SHA-256 digest is a function parameter;
- the multipart body is an `Option` of bytes;
- the process list and the confirmation answer are parameters of the command-line helpers.

## Model

| member | source | states |
|---|---|---|
| Core.StringField | internal/core/node_fn.go:29-41 | A metadata field is read only when present and holding a string, and then it is that string |
| Core.Node.NewNode | internal/core/core.go:30-42 | A new node has the given type and name, empty parents/children/events/planned events/attachments, no users or entries, and is a valid (acyclic) one-node tree |
| Core.NewForest | internal/core/core.go:45-48 | The forest root is a fresh, valid, empty branch node with the given name |
| NodeSpec.Begun | internal/core/node_fn.go:23-47 | A started event has no entries and no end. It is ongoing and stamped now exactly when there is no planned start or now is after it, and pending otherwise. Category, frequency and pattern come from the string-valued metadata fields |
| NodeSpec.Planned | internal/core/node_fn.go:113-119 | A planned event is pending with the planned start and end as its times and no entries |
| NodeSpec.Ended | internal/core/node_fn.go:67-69 | Ending stamps the end time now and marks the event finished, keeping start, entries and metadata |
| NodeSpec.EndResult | internal/core/node_fn.go:54-72 | Ending fails with "not found" for an unknown event and "not started" for an event without a start. It succeeds exactly otherwise, changing only that event |
| NodeSpec.AppendResult | internal/core/node_fn.go:75-102 | Appending fails for an unknown, finished or unstarted event, in that order of checks. It succeeds exactly for an ongoing one, adding the entry at the end of that event only |
| NodeSpec.BegunConsistent | internal/core/node_fn.go:43-47 | A freshly started event is consistent: ongoing exactly when it has a start time, finished exactly when it has an end |
| NodeSpec.LifecyclePreservesConsistency | internal/core/node_fn.go:15-102 | Starting, ending and appending keep every event of a node consistent |
| NodeSpec.AppendOnlyWhileOngoing | internal/core/node_fn.go:84-90 | On consistent events, appending succeeds if and only if the event is ongoing. Ending leaves it finished |
| NodeSpec.FirstUser | internal/core/node_fn.go:145-151 | The index of the first user with the ID, or -1 when there is none |
| NodeSpec.AssignStrict | internal/core/actions.go:140-159 | Assigning a permission the user already holds is an error naming user and permission. Otherwise it is the permissive assignment |
| NodeSpec.AssignGrants | internal/core/node_fn.go:142-157 | After assignment the user holds the permission. An unknown user is appended with exactly that permission |
| NodeSpec.AssignFrames | internal/core/node_fn.go:142-157 | Assignment changes only the first user with that ID, whose list gains the permission at the end |
| NodeSpec.StrictKeepsNoDuplicates | internal/core/actions.go:140-159 | The strict assignment keeps every permission list free of duplicates |
| NodeSpec.PermissiveDuplicates | internal/core/node_fn.go:142-157 | The permissive assignment duplicates a permission already held |
| NodeSpec.Marker | internal/core/node_fn.go:163-167 | A time-tracking marker carries the user, the marker text and the time, with no metadata or attachments |
| NodeFn.StartEvent | internal/core/node_fn.go:15-51 | A non-leaf node refuses and is unchanged. A leaf stores the started event under the ID |
| NodeFn.EndEvent | internal/core/node_fn.go:54-72 | The events become the ending's result, or stay as they were with its error |
| NodeFn.AppendToEvent | internal/core/node_fn.go:75-102 | The events become the append's result, or stay as they were with its error |
| NodeFn.PlanEvent | internal/core/node_fn.go:105-123 | A non-leaf node refuses. A leaf stores the planned event under the ID. Started events are untouched |
| NodeFn.CheckPermission | internal/core/node_fn.go:126-138 | True exactly when some user with the ID holds the permission |
| NodeFn.AssignUser | internal/core/node_fn.go:142-157 | Never fails. The users become the permissive assignment |
| NodeFn.StartTimeTracking | internal/core/node_fn.go:159-171 | A start marker is appended to the node's entries and returned |
| NodeFn.StopTimeTracking | internal/core/node_fn.go:174-187 | An end marker is appended to the node's entries and returned |
| Actions.StartEvent | internal/core/actions.go:14-50 | As in node_fn.go: a non-leaf node refuses, a leaf stores the started event |
| Actions.EndEvent | internal/core/actions.go:53-71 | The events become the ending's result or stay unchanged with its error |
| Actions.AppendToEvent | internal/core/actions.go:74-101 | The events become the append's result or stay unchanged with its error |
| Actions.PlanEvent | internal/core/actions.go:104-122 | A non-leaf node refuses. A leaf stores the planned event |
| Actions.CheckPermission | internal/core/actions.go:125-137 | True exactly when some user with the ID holds the permission |
| Actions.AssignUser | internal/core/actions.go:140-159 | The strict assignment: an error and no change when the permission is already held, the new users otherwise |
| Actions.StartTimeTracking | internal/core/actions.go:161-173 | A start marker is appended and returned |
| Actions.StopTimeTracking | internal/core/actions.go:176-189 | An end marker is appended and returned |
| NodeGet.GetPlannedEvents | internal/core/node_get.go:9-18 | Returns the planned events without error |
| NodeGet.GetNode | internal/core/node_get.go:22-38 | Succeeds exactly for "forest" or an ID in the subtree, returning a node of the subtree with that ID. Otherwise "node not found" |
| NodeGet.Summarize | internal/core/node_get.go:50-73 | The count is the number of entries and the last update is the last entry's time. A finished event's duration is end minus start, and an ongoing one's is now minus start. A finished event without a start is an error, where the source dereferences nil |
| NodeGet.GetEventSummary | internal/core/node_get.go:41-74 | "event not found" for an unknown ID. Otherwise the summary of that event |
| NodeGet.SummaryAgreesWithStatus | internal/core/node_get.go:56-66 | For a consistent event the summary succeeds and reports the event's own status |
| NodeGet.ConcatLength | internal/core/node_get.go:81-84 | The concatenated entries number the sum of the events' entry counts |
| NodeGet.GetAllEventEntries | internal/core/node_get.go:77-86 | The result is every event's entries, concatenated in some order visiting each event once |
| NodeGet.GetEventEntries | internal/core/node_get.go:89-101 | "event not found" for an unknown ID. Otherwise a copy of that event's entries |
| NodeGet.GetTimeTrackingSummary | internal/core/node_get.go:104-127 | The loop's intervals are those of the time-tracking scan (`Track`) of the node's entries, which NodeGet.TrackPairs and NodeGet.TrackComplete characterise |
| NodeGet.TrackPairs | internal/core/node_get.go:109-124 | Every reported interval is a start marker of the user followed, with no marker between, by an end marker. Its duration is end minus start. A pending start is the user's last marker |
| NodeGet.PendingComplete | internal/core/node_get.go:112-113 | A start marker with no later marker of the user is pending when the scan ends |
| NodeGet.TrackComplete | internal/core/node_get.go:109-124 | The summary is exactly the intervals of the user's start/end pairs, in the order of their end markers. A pair is a start marker followed by an end marker with no marker of the user between them. No pair is missed and nothing else is reported |
| NodeGet.TrackIgnoresOthers | internal/core/node_get.go:111 | Other users' entries play no part in a user's summary |
| NodeGet.TrackBound | internal/core/node_get.go:114 | There are at most as many intervals as end markers |
| NodeGet.StartThenEnd | internal/core/node_get.go:112-121 | A start marker directly followed by an end marker adds exactly one interval and leaves nothing pending |
| NodeGet.GetUserProfile | internal/core/node_get.go:130-147 | The first user with the ID, or "user not found" |
| Logic.TimeDifferences | internal/core/logic.go:26-37 | No difference is reported exactly when the two optional times are equal |
| Logic.EntryDifferencesEmpty | internal/core/logic.go:53-57 | No entry difference is reported exactly when the compared entries are equal |
| Logic.NoDifferencesIffSame | internal/core/logic.go:25-58 | No difference at all if and only if start, end, status, metadata and entries all agree |
| Logic.NilAgainstSetDiffers | internal/core/logic.go:26-27 | A missing planned start against a set actual start is reported first, as "StartTime differs" |
| Logic.CompareEntries | internal/core/logic.go:53-57 | The loop reports exactly the positions whose entries differ, in order |
| Logic.CompareEvents | internal/core/logic.go:11-66 | Fails when either event is missing. Otherwise reports "same" exactly when there are no differences, and returns the differences as the error |
| Logic.FieldReport | internal/core/logic.go:25-47 | The start-time, end-time, status and metadata part of the report, in the order the source appends them |
| NodeAdd.WithParent | internal/core/node_add.go:31-36 | The parent map gains the parent's ID with its name and keeps every other entry. A nil map is replaced by a new one |
| NodeAdd.AddActivity | internal/core/node_add.go:8-18 | An entry with the content, metadata, user and time is appended to the node |
| NodeAdd.AddParent | internal/core/node_add.go:31-36 | The node's parents become the map with the parent added |
| NodeAdd.AddChild | internal/core/node_add.go:21-28 | The child is stored under its ID and records this node as a parent. The tree stays valid when the child does not already contain the node |
| NodeAdd.AddUser | internal/core/node_add.go:39-54 | Never fails. The users become the permissive assignment |
| Adders.AddActivity | internal/core/adders.go:6-16 | An entry with the content, metadata, user and time is appended |
| Adders.AddChild | internal/core/adders.go:19-26 | The child is stored under its ID and gets the parent link. The tree stays valid |
| Adders.AddParent | internal/core/adders.go:29-34 | The node's parents become the map with the parent added |
| Attachments.NewAttachmentStore | internal/core/attachment.go:16-20 | The store's limit is 10 MiB |
| Attachments.Store | internal/core/attachment.go:22-50 | An oversized file or a failed read is an error. Otherwise the attachment's ID and hash are the body's digest, its data and size are the body's, and it records name, type, uploader and time |
| Attachments.IsCompressibleType | internal/core/attachment.go:53-71 | True exactly for MIME types outside the already-compressed list |
| Attachments.GetAttachment | internal/core/attachment.go:74-79 | The node's attachment with that ID, or "attachment not found" |
| Attachments.GetEntryAttachment | internal/core/attachment.go:82-99 | Errors for an unknown event or an index out of range. Otherwise the first attachment of the entry with that ID, with "not found" exactly when there is none |
| LogLine.FormatTimestamp | types/logger.go:41 | The `log` package's stamp is 19 characters: the zero-padded year, month and day separated by "/", one space, then the zero-padded hour, minute and second separated by ":". Its UTF-8 bytes are the byte stamp the parser reads |
| LogLine.GetNum | internal/api_helpers.go:262 | Go's `getnum`: one or two leading digits, and two when the element is zero-padded. The value is those digits followed by what is left |
| LogLine.LongYear | internal/api_helpers.go:262 | The year element is four digits, and the value is those digits followed by what is left |
| LogLine.SkipSpace | internal/api_helpers.go:262 | The layout's space fails on a value that starts with another byte. Otherwise it drops every leading space, one or many |
| LogLine.DateFields | internal/api_helpers.go:262 | The date elements: four digits, "/", a two-digit month from 1 to 12, "/", a two-digit day |
| LogLine.ClockFields | internal/api_helpers.go:262 | The clock elements: an hour below 24 in one or two digits, ":", a two-digit minute below 60, ":", a two-digit second below 60 |
| LogLine.Fields | internal/api_helpers.go:262 | The fields the layout reads are in the layout's ranges |
| LogLine.ParseTimestamp | internal/api_helpers.go:262 | A 19-byte value that parses gives a valid date and time: the month is 1 to 12, the day exists in that month, the hour is below 24, and the minute and second are below 60 |
| LogLine.FieldsOfStamp | internal/api_helpers.go:262 | Every stamp with one or more spaces and a one- or two-digit hour has its fields read back, whatever follows it |
| LogLine.FieldsShape | internal/api_helpers.go:262 | Whatever the layout reads is such a stamp, followed by the rest of the value |
| LogLine.FormatThenParse | internal/api_helpers.go:262 | Parsing the bytes of the stamp the `log` package writes gives back the date and time |
| LogLine.ShortHourThenParse | internal/api_helpers.go:262 | Go also reads two spaces and a one-digit hour ("2024/01/02  5:04:05"), to the same date and time |
| LogLine.ParseThenFormat | internal/api_helpers.go:262 | Nothing else parses: a 19-byte value that parses is the canonical stamp of its date and time or, for an hour below 10, the two-space form with a one-digit hour |
| LogLine.ParsedAscii | internal/api_helpers.go:262 | A 19-byte value that parses is ASCII |
| LogLine.Indent | types/logger.go:32-37 | The indent has three characters per level, a bar followed by spaces |
| LogLine.IndentIsRepeat | types/logger.go:36 | The indent is "│  " repeated depth times |
| LogLine.DepthAfterEnter | types/logger.go:56-59 | After Enter the depth is at least one |
| LogLine.DepthAfterExit | types/logger.go:61-66 | Exit lowers a positive depth by one and leaves zero at zero |
| LogLine.ExitUndoesEnter | types/logger.go:56-66 | Exit after Enter restores the depth, clamped at zero |
| LogLine.BalancedRestoresDepth | types/logger.go:56-66 | A balanced sequence of Enter and Exit calls returns to the starting depth |
| LogLine.Line | types/logger.go:39-42 | A line is the stamp, a space, the indent, the prefix, a space and the message |
| TypesLogger.LogInfo.NewLogger | types/logger.go:28-30 | A new logger starts at depth zero |
| TypesLogger.LogInfo.GetIndent | types/logger.go:32-37 | A negative depth is reset to zero, and the indent matches the depth |
| TypesLogger.LogInfo.Log | types/logger.go:39-42 | The emitted line has the clamped depth's indent, the prefix and the message |
| TypesLogger.LogInfo.LogSymbol | types/logger.go:39-42 | A symbol line reads back as a "message" record of the symbol's level |
| TypesLogger.LogInfo.Info | types/logger.go:44-46 | The line carries the info symbol and reads back as an INFO message |
| TypesLogger.LogInfo.Success | types/logger.go:48-50 | The line reads back as a SUCCESS message |
| TypesLogger.LogInfo.Failure | types/logger.go:52-54 | The line reads back as a FAILURE message |
| TypesLogger.LogInfo.Enter | types/logger.go:56-59 | The BEGIN line goes out at the old depth, and the depth grows. It reads back as an INFO "begin" record |
| TypesLogger.LogInfo.Exit | types/logger.go:61-66 | The depth drops first, then the END line goes out. It reads back as an INFO "end" record |
| TypesLogger.LogInfo.Debug | types/logger.go:68-70 | The line reads back as a DEBUG message |
| TypesLogger.LogInfo.Notice | types/logger.go:72-74 | The line reads back as a NOTICE message |
| TypesLogger.LogInfo.Warn | types/logger.go:76-78 | The line reads back as a WARNING message |
| TypesLogger.LogInfo.Error | types/logger.go:80-82 | The line reads back as an ERROR message |
| TypesLogger.LogInfo.Critical | types/logger.go:84-86 | The line reads back as a CRITICAL message |
| TypesLogger.LogInfo.Alert | types/logger.go:88-90 | The line reads back as an ALERT message |
| TypesLogger.LogInfo.Emergency | types/logger.go:92-94 | The line reads back as an EMERGENCY message |
| InternalLogger.ProductionLogger.NewLogger | internal/logger.go:23-25 | A new logger starts at depth zero |
| InternalLogger.ProductionLogger.GetIndent | internal/logger.go:27-32 | A negative depth is reset to zero, and the indent matches the depth |
| InternalLogger.ProductionLogger.Log | internal/logger.go:34-37 | The emitted line has the clamped depth's indent, the prefix and the message |
| InternalLogger.ProductionLogger.LogSymbol | internal/logger.go:34-37 | A symbol line reads back as a "message" record of the symbol's level |
| InternalLogger.ProductionLogger.Info | internal/logger.go:39-41 | The line reads back as an INFO message |
| InternalLogger.ProductionLogger.Success | internal/logger.go:43-45 | The line reads back as a SUCCESS message |
| InternalLogger.ProductionLogger.Failure | internal/logger.go:47-49 | The line reads back as a FAILURE message |
| InternalLogger.ProductionLogger.Enter | internal/logger.go:51-54 | The BEGIN line goes out at the old depth, and the depth grows. It reads back as an INFO "begin" record |
| InternalLogger.ProductionLogger.Exit | internal/logger.go:56-61 | The depth drops, then the END line reads back as an INFO "end" record |
| ApiHelpers.CompareHashes | internal/api_helpers.go:21-31 | True exactly when the two byte strings are equal |
| Helpers.CompareHashes | internal/helpers.go:22-32 | True exactly when the two byte strings are equal |
| ApiHelpers.SymbolLevels | internal/api_helpers.go:299-310 | The symbol map sends each of the ten symbols to its level name |
| ApiHelpers.SymbolsApart | internal/api_helpers.go:273-315 | No level symbol is a tree character, a space or the start of BEGIN/END, so the three parsing steps cannot interfere |
| ApiHelpers.LeadingCount | internal/api_helpers.go:271-278 | The count is the length of the longest prefix made of the given characters |
| ApiHelpers.SymbolOf | internal/api_helpers.go:313-321 | A symbol is found exactly when the message starts with one |
| ApiHelpers.AtMostOneSymbol | internal/api_helpers.go:314-321 | At most one symbol prefixes a message, so Go's random map order does not change the result |
| ApiHelpers.Classify | internal/api_helpers.go:288-328 | The level is always a level name, and the type is "begin", "end" or "message" |
| ApiHelpers.ReadLine | internal/api_helpers.go:257-341 | "line too short" exactly when the line's UTF-8 form has fewer than 19 bytes, and "invalid timestamp" exactly when its first 19 bytes do not parse. Otherwise a record stamped with the parsed time, whose level is a level name |
| ApiHelpers.StampFirst | internal/api_helpers.go:262-268 | A stamp that parses is the line's first 19 characters, so `line[19:]` is the text after it |
| ApiHelpers.MultibyteShortLine | internal/api_helpers.go:257-265 | A line of fewer than 19 characters but at least 19 bytes passes the length check and fails as "invalid timestamp" |
| ApiHelpers.Filter | internal/api_helpers.go:331-333 | An empty filter keeps the record. A kept record is unchanged |
| ApiHelpers.ParseLine | internal/api_helpers.go:255-342 | Parsing fails exactly when reading the line fails, with the same error: fewer than 19 UTF-8 bytes, or a first 19 bytes that Go's stamp parse refuses (space runs and a one-digit hour are accepted). A kept record is the line's record, and an empty level keeps it |
| ApiHelpers.ParseLogEntry | internal/api_helpers.go:255-342 | The method measures the line in bytes, parses the stamp, counts the tree prefix and filters the level. Its result is the line's parse (ParseLine) |
| ApiHelpers.CountTreePrefix | internal/api_helpers.go:271-278 | The loop counts the leading tree characters |
| ApiHelpers.ClassifyMessage | internal/api_helpers.go:288-328 | The loop over the symbols computes the classification |
| ApiHelpers.LowerFolds | internal/api_helpers.go:331 | A level name in lower case folds to itself |
| ApiHelpers.LowerCaseFilter | internal/api_helpers.go:331-333 | A filter naming the record's level in lower case keeps it |
| ApiHelpers.OtherLevelFilter | internal/api_helpers.go:331-333 | A filter naming another level drops the record |
| ApiHelpers.ParseBlockLine | internal/api_helpers.go:289-296 | A logger's BEGIN/END line reads back as an INFO "begin"/"end" record named by it. The indent count is 2 at the top level and 1 below |
| ApiHelpers.ParseSymbolLine | internal/api_helpers.go:312-327 | A logger's symbol line reads back as a "message" record with the symbol's level and the message. The indent count is 0 at the top level and 1 below |
| ApiHelpers.ReadLineUnfold | internal/api_helpers.go:262-281 | Once the stamp parses, the record is read from the trimmed remainder |
| ApiHelpers.CountIndent | internal/api_helpers.go:271-278 | Below the top level only the indent's first bar is counted, since a space stops the count |
| ApiHelpers.PageOf | internal/api_helpers.go:186-203 | A page holds at most page-size records, those at positions (page-1)*size onward. "More" is true exactly when records follow the page's end, (page-1)*size + size |
| ApiHelpers.PagesCover | internal/api_helpers.go:186-203 | Pages 1..k together are exactly the first k*size records: none skipped, none repeated |
| ApiHelpers.HasMoreMeansNextPage | internal/api_helpers.go:200-202 | "More" is true exactly when the next page is non-empty |
| ApiHelpers.Server.InitLogCacheIfNeeded | internal/api_helpers.go:246-253 | A cache is created once (empty, pages of 100) and then kept |
| ApiHelpers.Server.GetPaginatedLogs | internal/api_helpers.go:186-203 | Returns the requested page of the cache and whether more follow |
| ApiHelpers.Server.UpdateSettings | internal/api_helpers.go:101-137 | The first user with the ID gets the organization, and the configuration becomes the merge of the settings |
| ApiHelpers.Server.GetNodeFromPath | internal/api_helpers.go:67-98 | The empty path gives the forest. A found node is reached by following the path's parts through child names. "node not found" exactly when some part has no matching child |
| ApiHelpers.UpdateOrganization | internal/api_helpers.go:103-108 | The loop gives the organization to the first user with the ID |
| ApiHelpers.SetOrganizationEffect | internal/api_helpers.go:103-108 | Users with other IDs are unchanged, nobody changes when no ID matches, and a matching user gets the organization |
| ApiHelpers.MergeSettings | internal/api_helpers.go:111-131 | The field updates compute the merged configuration |
| ApiHelpers.Pick | internal/api_helpers.go:111-131 | A non-empty setting replaces the value, and an empty one keeps it |
| ApiHelpers.MergeConfig | internal/api_helpers.go:111-131 | The database name, process ID, PID, database name and dashboard fields never change |
| ApiHelpers.MergeEmpty | internal/api_helpers.go:111-131 | Settings with nothing filled in leave the configuration as it is |
| ApiHelpers.MergeIdempotent | internal/api_helpers.go:111-131 | Applying the same settings twice is the same as once |
| ApiHelpers.MergeTwice | internal/api_helpers.go:111-131 | A later update wins on each field it fills in, and the earlier one survives elsewhere |
| Helpers.GetNodeFromPath | internal/helpers.go:71-94 | The empty path gives the forest. A found node is reached along the path. "node not found" exactly when the walk is blocked |
| App.App.GetNodeFromPath | app.go:87-110 | The empty path gives the forest. A found node is reached along the path. An error exactly when the walk is blocked |
| PathWalk.ReachedInside | internal/api_helpers.go:81-93 | A node reached along a path is a valid node of the forest |
| PathWalk.ReachesOrBlocked | internal/api_helpers.go:81-93 | Every path either reaches a node or is blocked at some part |
| PathWalk.UniqueWalk | internal/api_helpers.go:81-93 | When sibling names are unique, a path that reaches a node is not blocked |
| PathWalk.Walk | internal/api_helpers.go:74-97 | The walk's result is a node reached along the split path, or "node not found" exactly when it is blocked |
| Strings.Split | internal/api_helpers.go:78 | Splitting always gives at least one part |
| Strings.SplitJoin | internal/api_helpers.go:78 | Joining the parts with the separator gives back the string |
| Strings.SplitPartsFree | internal/api_helpers.go:78 | No part contains the separator |
| Strings.SplitSingle | internal/dashboard/static/js/dashboard.js:417-418 | A single part exactly when the separator does not occur |
| Strings.TrimLeft | internal/api_helpers.go:281 | Only cutset characters are removed from the front, and the result starts outside the cutset |
| Strings.TrimSpace | internal/api_helpers.go:268 | The result neither starts nor ends with white space |
| Strings.TrimSpaceTrimmed | internal/api_helpers.go:268 | Trimming changes a string exactly when it has white space at an end |
| Strings.TrimPrefix | internal/api_helpers.go:291 | With the prefix, the prefix plus the result is the input. Without it, the input is returned |
| Cli.LastLines | cmd/cli.go:589-597 | The last n lines in order (all of them when there are fewer; none for n <= 0) |
| Cli.ShowLastLines | cmd/cli.go:581-602 | The sliding-window loop keeps exactly the last n lines |
| Cli.ValidateDBName | cmd/cli.go:792-798 | An error exactly for the empty name |
| Cli.ListHandler | cmd/cli.go:604-616 | No argument or "configs" lists the configs, and "running" the running servers. Anything else is an error |
| Cli.FirstMatch | cmd/cli.go:480-486 | The first server matching by ID (or also by database name), or -1 |
| Cli.FindServer | cmd/cli.go:480-486 | The scan returns the first match |
| Cli.RestartTarget | cmd/cli.go:727-759 | None running is an error. With no argument, the only server, or an error when several run. With one, a server with that ID or "not found" |
| Cli.SelectRestart | cmd/cli.go:727-759 | The selection equals the restart target |
| Cli.KillTarget | cmd/cli.go:441-499 | A name is required unless killing all. Killing all needs servers and force or confirmation. Otherwise a server whose ID or database name matches, or "not found" |
| Cli.SelectKill | cmd/cli.go:441-499 | The selection equals the kill target |
| Cli.KillByNameRestartById | cmd/cli.go:481 | Kill accepts a database name that restart (ID only, cmd/cli.go:749) rejects |
| Strings.SplitOnce | internal/dashboard/static/js/dashboard.js:417 | A separator that occurs at one place only splits the text in two around it |
| Strings.SplitTwice | internal/dashboard/static/js/dashboard.js:417 | Two occurrences of the separator that do not overlap give at least three parts |
| Dashboard.GetCookie | internal/dashboard/static/js/dashboard.js:413-425 | A found cookie value holds no ";", and no value is found unless "; name=" occurs in "; " + the header |
| Dashboard.GetCookieAt | internal/dashboard/static/js/dashboard.js:413-425 | Wherever the cookie stands in the header, when "; name=" occurs at that place only, its value is found: the text after it up to the end or the next ";" |
| Dashboard.GetCookieTwice | internal/dashboard/static/js/dashboard.js:416-423 | A cookie named twice ("a=1; a=2") is not found, because the split has more than two parts |
| Dashboard.Step | internal/dashboard/static/js/dashboard.js:690-724 | One record's step is StepOf. A BEGIN record pushes a block. An END record closes the innermost block, or changes nothing when none is open. Any other record joins the innermost block, or becomes a top-level group. The step keeps the nesting well indented and adds exactly the record, unless it is an END record |
| Dashboard.CloseBlock | internal/dashboard/static/js/dashboard.js:700-712 | The closed block goes at the end of its parent's nested blocks, or at the end of the top-level groups when no other block is open. The blocks below stay as they were, and no record is lost or added |
| Dashboard.AddToTop | internal/dashboard/static/js/dashboard.js:714-719 | The blocks below the innermost one are unchanged. The innermost block's records gain the record at the end, with the number of open blocks as its indent |
| Dashboard.PushBlock | internal/dashboard/static/js/dashboard.js:691-707 | The stack gains on top a block with the record as header, no records, no nested blocks, and the number of open blocks as its indent |
| Dashboard.AddLoose | internal/dashboard/static/js/dashboard.js:720-722 | The top-level groups gain at the end a group holding the record alone, at indent 0 |
| Dashboard.ProcessLogsIntoGroups | internal/dashboard/static/js/dashboard.js:686-727 | The result is GroupsOf(logs), the steps over the records in order. It is well indented and holds exactly the non-END records |
| Dashboard.CloseAll | internal/dashboard/static/js/dashboard.js:699-705 | Blocks still open at the end are closed innermost first, each at the end of its parent's nested blocks or of the top level, where the source linked it when it opened. Every one of their records is kept |
| Dashboard.RecordsThenGroups | internal/dashboard/static/js/dashboard.js:686-727 | Grouping undoes writing groups out. Take well-formed groups and write each block as its BEGIN header, its records, its nested blocks and an END record. Grouping those records gives back the same groups |
| Dashboard.OneBlock | internal/dashboard/static/js/dashboard.js:686-727 | A BEGIN record, one other record and an END record give a single block holding that record at indent 1 |
| Keys.LessIrreflexive | keytree.cpp:12-22 | The key order (alternative index, then value) is irreflexive |
| Keys.LessTotal | keytree.cpp:12-22 | Distinct keys are ordered one way or the other |
| Keys.LessAsymmetric | keytree.cpp:12-22 | The key order is asymmetric |
| Keys.LessTransitive | keytree.cpp:12-22 | The key order is transitive |
| CppTypes.StringLtTransitive | keytree.cpp:12-22 | The lexicographic string order is transitive |
| CppTypes.StringLtTotal | keytree.cpp:12-22 | Distinct strings are ordered one way or the other |
| CppTypes.TypeNameInjective | key.cpp:14-19 | Different types have different names |
| KeyCpp.ExactlyOne | key.cpp:3-5 | Exactly one of isInt, isChar and isString holds |
| KeyCpp.GetType | key.cpp:7-12 | The type is string, int or char exactly when the key holds that alternative |
| KeyCpp.GetTypeName | key.cpp:14-19 | The name is "string", "int" or "char" exactly when the key holds that alternative |
| KeyCpp.TypeNameAgrees | key.cpp:7-19 | The name is the type's name |
| KeyCpp.GetValue | key.cpp:21 | The value is the key's own variant |
| HeirarchyKey.ExactlyOne | heirarchy/key.cpp:3-5 | Exactly one alternative predicate holds |
| HeirarchyKey.TypeInfo | heirarchy/key.cpp:7-12 | The type id matches the held alternative |
| HeirarchyKey.Type | heirarchy/key.cpp:14-19 | The type name matches the held alternative |
| HeirarchyKey.TypeNameAgrees | heirarchy/key.cpp:7-19 | The name is the type id's name |
| HeirarchyKey.Value | heirarchy/key.cpp:21 | The value is the key's own variant |
| ValueCpp.ExactlyOne | value.cpp:3-7 | Exactly one of the five alternative predicates holds |
| ValueCpp.TypeInfo | value.cpp:9-16 | The type id matches the held alternative |
| ValueCpp.Type | value.cpp:18-25 | The type name matches the held alternative |
| ValueCpp.TypeInfoAgrees | value.cpp:9-25 | The name is the type id's name |
| ValueCpp.ValueOf | value.cpp:27 | The value is the variant the wrapper holds |
| ValueTypes.EqualIsIdentity | alpha/heirarchy/value.cpp:31-38 | Variant equality is identity, except that NaN equals nothing |
| ValueTypes.NotEqualNegates | alpha/heirarchy/value.cpp:40-47 | != is the negation of == |
| ValueTypes.OrderTotal | alpha/heirarchy/value.cpp:49-83 | Without NaN, >= is not-< and <= is not-> |
| ValueTypes.NaNUnordered | alpha/heirarchy/value.cpp:49-83 | A NaN is neither below nor at-or-above a number, and is unequal to itself |
| AlphaValue.ExactlyOne | alpha/heirarchy/value.cpp:4-8 | Exactly one of the five alternative predicates holds |
| AlphaValue.Type | alpha/heirarchy/value.cpp:10-17 | The type name matches the held alternative |
| AlphaValue.ValueOf | alpha/heirarchy/value.cpp:19 | The value is the held variant |
| AlphaValue.IsSameType | alpha/heirarchy/value.cpp:27-29 | Always true: it compares the wrapper's static type with itself |
| AlphaValue.Eq | alpha/heirarchy/value.cpp:31-38 | Never throws. True exactly for the same alternative holding the same value, NaN excepted |
| AlphaValue.Ne | alpha/heirarchy/value.cpp:40-47 | Never throws, and is the negation of == |
| AlphaValue.Lt | alpha/heirarchy/value.cpp:49-56 | Never throws. Values of different alternatives are ordered by alternative index. Within one alternative, the held values are compared |
| AlphaValue.Gt | alpha/heirarchy/value.cpp:58-65 | > is < with the operands swapped |
| AlphaValue.Le | alpha/heirarchy/value.cpp:67-74 | Never throws. Different alternatives are ordered by index. Within one alternative, the held values are compared with `<=` |
| AlphaValue.Ge | alpha/heirarchy/value.cpp:76-83 | >= is <= with the operands swapped |
| AlphaValue.DifferentTypesUnequal | alpha/heirarchy/value.cpp:31-47 | Values of different types compare unequal instead of raising the type error |
| AlphaValue.OrderNegates | alpha/heirarchy/value.cpp:49-83 | Without NaN, >= is not-< and <= is not-> |
| AlphaValue.NaNBreaksOrder | alpha/heirarchy/value.cpp:49-83 | With a NaN, < and >= are both false, and NaN is unequal to itself |
| NetworkNodes.FirstEqual | networknode.cpp:12-30 | The first position holding an equal value, or -1 exactly when none is equal |
| NetworkNodes.NetworkNode.AddValue | networknode.cpp:4-6 | The value is appended and earlier values stay |
| NetworkNodes.NetworkNode.DeleteValue | networknode.cpp:8-10 | The value at the index goes, and later values move down by one |
| NetworkNodes.NetworkNode.GetIndex | networknode.cpp:12-20 | std::find's position: the first equal value, or -1 |
| NetworkNodes.NetworkNode.GetIndexOfVariant | networknode.cpp:22-30 | The same search for a variant |
| NetworkNodes.NetworkNode.AddConnection | networknode.cpp:32-34 | Set insertion: adding a present connection changes nothing |
| NetworkNodes.NetworkNode.RemoveConnection | networknode.cpp:36-38 | Set erasure: removing an absent connection changes nothing |
| NetworkNodes.NaNNotFound | networknode.cpp:12-20 | A NaN is never found, even right after it was added |
| NetworkNodes.AppendedFound | networknode.cpp:4-20 | Any other appended value is found, at or before its position |
| HeirarchyNetworkNodes.FirstEqual | heirarchy/networknode.cpp:18-36 | The first position whose value is == under the Value operator, or -1 exactly when none is |
| HeirarchyNetworkNodes.NetworkNode.constructor | heirarchy/networknode.cpp:3-7 | Key NULL (integer 0), no values, no connections |
| HeirarchyNetworkNodes.NetworkNode.GetKeyType | heirarchy/networknode.cpp:8 | The key's type name, "int" exactly for an integer key |
| HeirarchyNetworkNodes.NetworkNode.AddValue | heirarchy/networknode.cpp:10-12 | The wrapped value is appended |
| HeirarchyNetworkNodes.NetworkNode.DeleteValue | heirarchy/networknode.cpp:14-16 | The value at the index goes, and later values move down |
| HeirarchyNetworkNodes.NetworkNode.GetIndex | heirarchy/networknode.cpp:18-26 | The first equal value's position, or -1 |
| HeirarchyNetworkNodes.NetworkNode.GetIndexOfVariant | heirarchy/networknode.cpp:28-36 | The same search comparing the held variants |
| HeirarchyNetworkNodes.NetworkNode.AddConnection | heirarchy/networknode.cpp:38-40 | Set insertion |
| HeirarchyNetworkNodes.NetworkNode.RemoveConnection | heirarchy/networknode.cpp:42-44 | Set erasure |
| HeirarchyNetworkNodes.SearchesAgree | heirarchy/networknode.cpp:18-36 | Searching with a Value and with its variant agree on "not found" |
| KeyTreeSpec.PathEnd | keytree.cpp:8-31 | The walk from a node ends at a later node carrying the key, or at a leaf |
| KeyTreeSpec.Found | keytree.cpp:38-66 | Search returns -1 (nullptr) or a node carrying the key |
| KeyTreeSpec.Attach | keytree.cpp:13-16 | The new node becomes the sole child of the leaf, with its parent set, and the tree stays valid |
| KeyTreeSpec.InsertSpec | keytree.cpp:3-36 | Inserting into an empty tree makes the node the root. An equal key already on the path is returned, and nothing is attached. Otherwise a new node carrying the key is attached to a leaf. The tree stays valid, and a chain stays a chain |
| KeyTreeSpec.InsertThenSearch | keytree.cpp:3-66 | Searching right after inserting a key returns the node insert returned |
| KeyTreeSpec.ChainFind | keytree.cpp:38-66 | In a chain (what inserts build), search finds a key exactly when it occurs below the root |
| KeyTreeSpec.EraseFirst | keytree.cpp:89-94 | Erasing the first occurrence removes the child and keeps the others in order |
| KeyTreeSpec.Detached | keytree.cpp:86-95 | Unlinking clears a lone child list or erases the node from it. Keys, parents and other lists are unchanged, the tree stays valid, and the edge count drops when the node was linked |
| KeyTreeSpec.DetachSettles | keytree.cpp:85-106 | After two unlink passes a third changes nothing, so the matching loop never leaves |
| KeyTreeSpec.RightmostLeaf | keytree.cpp:110-112 | The rightmost descent ends at a leaf at or below the start |
| KeyTreeSpec.Replacement | keytree.cpp:108-112 | The replacement is a leaf strictly below the matched node, linked from its parent |
| KeyTreeSpec.Promoted | keytree.cpp:114 | The matched node takes the replacement's key, and nothing else changes |
| KeyTreeSpec.RemoveFrom | keytree.cpp:77-128 | The loop keeps the tree valid, and sizes, parents and root unchanged. Keys change only by promotion and links only by unlinking. The int and string overloads never reach undefined behaviour |
| KeyTreeSpec.RemoveSpec | keytree.cpp:68-129 | An empty tree, or an id carried by no node under the root, leaves the tree as it was and returns |
| KeyTreeSpec.ChainRemove | keytree.cpp:68-129 | On a chain, removal returns when the id is absent, dereferences the null parent when it is the root's, and otherwise unlinks the match and never leaves the loop |
| KeyTreeSpec.SiblingLost | keytree.cpp:85-106 | Removing one of two children also loses its sibling: the second pass clears the lone remaining child |
| KeyTreeSpec.CharOverloadUndefined | keytree.cpp:186 | On a concrete tree the char overload reaches undefined behaviour, while the corrected erase promotes and returns |
| KeyTreeSpec.PrintSpec | keytree.cpp:256-279 | The first printed line is the root's key, and no line is empty |
| KeyTreeSpec.ChainLevels | keytree.cpp:261-279 | A chain prints one key per line, top to bottom |
| KeyTrees.KeyTree.constructor | keytree.h:11 | A root with key NULL (integer 0) and no children |
| KeyTrees.KeyTree.FromKey | heirarchy/keytree.h:13 | A one-node tree around the given key |
| KeyTrees.KeyTree.Insert | keytree.cpp:3-36 | The pointer walk produces exactly the insert specification's tree and returned node |
| KeyTrees.KeyTree.Search | keytree.cpp:38-66 | The pointer walk returns the specification's found node |
| KeyTrees.KeyTree.HasDescendantFrom | keynode.h:28-30 | True exactly when the subtree carries the key |
| KeyTrees.KeyTree.Detach | keytree.cpp:86-95 | The child lists become the unlinked tree |
| KeyTrees.KeyTree.FindReplacement | keytree.cpp:108-112 | The descent returns the rightmost leaf |
| KeyTrees.KeyTree.Promote | keytree.cpp:107-126 | Promotion copies the replacement's key up and unlinks it, with fewer edges. The char overload's wrong erase is reported as undefined |
| KeyTrees.KeyTree.RemoveLoop | keytree.cpp:68-129 | The outcome and the new tree are those of the removal specification |
| KeyTrees.KeyTree.RemoveStep | keytree.cpp:68-129 | One pass of the loop either ends with the outcome and tree of the removal specification, or goes on at a node from which the specification gives the same result, with one edge fewer or one level lower |
| KeyTrees.KeyTree.RemoveInt | keytree.cpp:68-129 | remove(int) follows the removal specification |
| KeyTrees.KeyTree.RemoveChar | keytree.cpp:131-193 | remove(char) follows the removal specification with the wrong-vector erase |
| KeyTrees.KeyTree.RemoveString | keytree.cpp:195-254 | remove(string) follows the removal specification |
| KeyTrees.KeyTree.Print | keytree.cpp:256-279 | The level-order loop emits exactly the specification's lines |
| KeyTrees.KeyTree.PrintLevel | keytree.cpp:267-273 | One pass over a level gives exactly that level's keys and the next level: all their children, in vector order |
| KeyTrees.InsertThenSearchIn | keytree.cpp:3-66 | Searching for an inserted key returns the node insert returned |
| SetMaps.SetLessTransitive | setmap.h:9-15 | The lexicographic order on key sets is transitive |
| SetMaps.SetLessTotal | setmap.h:9-15 | Distinct key sets are ordered one way or the other |
| SetMaps.SetInsert | setmap.cpp:16-27 | Inserting into an ordered set keeps it ordered, and it then holds exactly the old keys and the new one |
| SetMaps.SortedDistinct | setmap.h:15 | A sorted map has one entry per key set |
| SetMaps.LookupAt | setmap.cpp:90-96 | The entry at an index is the one found for its own key set |
| SetMaps.MapInsert | setmap.cpp:47-49 | Insertion keeps the map sorted and adds no entry but the new one |
| SetMaps.MapInsertLookup | setmap.cpp:3-14 | std::map::insert keeps an existing entry. Otherwise the key set then maps to the values, and other key sets are unaffected |
| SetMaps.MapErase | setmap.cpp:21-24 | Erasure keeps the map sorted and adds nothing |
| SetMaps.MapEraseLookup | setmap.cpp:21-24 | The erased key set is gone, and others are unaffected |
| SetMaps.AppendTo | setmap.cpp:37 | The value is appended to exactly the entry with that key set, and the order is kept |
| SetMaps.Distribute | setmap.cpp:39-45 | The value is appended to exactly the entries whose set contains the key |
| SetMaps.Holding | setmap.cpp:64-76 | The indices are in range, ascending, and are exactly the sets containing the key |
| SetMaps.DistributeAtHolding | setmap.cpp:39-45 | Appending at the holding indices is the distribution |
| SetMaps.AllKeysComplete | setmap.cpp:52-62 | The concatenated keys number the sum of the set sizes, and hold a key exactly when some set holds it |
| SetMaps.SetMap.AddSet | setmap.cpp:47-49 | The map becomes the insertion (an existing set is kept) |
| SetMaps.SetMap.AddKV | setmap.cpp:3-14 | {key} maps to [value] unless {key} is already present, which is untouched |
| SetMaps.SetMap.GetKeySetFromIndex | setmap.cpp:111-118 | The ordered key set at the index |
| SetMaps.SetMap.InsertKey | setmap.cpp:16-27 | The old set's entry is erased and the union is inserted with the same values |
| SetMaps.SetMap.AddValue | setmap.cpp:29-35 | The value is appended to the vector at the index, and nothing else changes |
| SetMaps.SetMap.AddValueToSet | setmap.cpp:37 | The entry is created when absent, then the value is appended to it |
| SetMaps.SetMap.IndicesOfKey | setmap.cpp:64-76 | The indices of the sets containing the key, ascending |
| SetMaps.SetMap.DistributedValue | setmap.cpp:39-45 | The value is appended to exactly the sets containing the key |
| SetMaps.SetMap.GetKeys | setmap.cpp:52-62 | All sets' keys, concatenated in map order |
| SetMaps.SetMap.GetValues | setmap.cpp:78-88 | All vectors' values, concatenated in map order |
| SetMaps.SetMap.GetValuesAtIndex | setmap.cpp:90-96 | The vector the index's key set maps to |
| SetMaps.SetMap.GetKeyVectorFromIndex | setmap.cpp:98-109 | The index's keys, in set order |
| SetMaps.SetMap.GetValuesFromSet | setmap.cpp:120 | operator[] inserts an empty entry for an unknown set and returns the set's vector |
| SetMaps.SetMap.CountSetsWithKey | setmap.cpp:122-132 | The number of sets containing the key, the length of indicesOfKey |
| SetMaps.SetMap.CountMatchingSets | setmap.cpp:134-144 | 1 when the set is a key of the map, 0 otherwise |
| SetMaps.SetMap.ListOfVectorsFromKey | setmap.cpp:146-156 | The vectors of the sets containing the key, in map order |
| SetMaps.InsertKeyPresent | setmap.cpp:16-27 | Inserting a key the set already holds changes no lookup |
| SetMaps.InsertKeyCollision | setmap.cpp:16-27 | When the union already exists, it keeps its own values, the moved values are dropped, and the old set is gone |
| Memory.ExpandCapacity | alpha/deprecated/types/memory.h:9-10 | Below 8 the capacity becomes 8, and otherwise it doubles |
| Memory.ExpandGrows | alpha/deprecated/types/memory.h:9-10 | Expansion always makes room for at least one more element |
| Memory.ExpandMonotone | alpha/deprecated/types/memory.h:9-10 | Expansion is monotone |
| Memory.Expand | alpha/deprecated/types/memory.h:12-14 | A fresh buffer of the new size holding the old elements |
| CValues.CreateValue | deprecated/types/value.c:23-41 | A fresh value with the tag. Booleans and numbers are copied, and strings and objects are kept as the pointer |
| CValues.EqualValues | deprecated/types/value.c:44-55 | Different tags are unequal and two none values equal. Strings compare by characters and objects by address. A pair is never equal |
| CValues.EqualValuesSymmetric | deprecated/types/value.c:44-55 | equalValues is symmetric |
| CValues.EqualValuesReflexive | deprecated/types/value.c:44-55 | Every value but a pair or a NaN equals itself |
| CValues.StringsByContentObjectsByAddress | deprecated/types/value.c:50-53 | Distinct strings with equal text are equal, and distinct objects are not |
| CValues.Values.Init | deprecated/types/value.c:8-14 | No buffer, no elements, no room |
| CValues.Values.Destroy | deprecated/types/value.c:16-21 | Back to the initial state |
| CValues.Values.AddValue | deprecated/types/value.c:58-69 | When full the capacity expands. The value is appended and the earlier ones are kept |
| CKeys.CreateKey | deprecated/types/key.c:14-27 | A fresh key. An integer is copied, and a string is a fresh copy with the same characters |
| CKeys.Keys.Init | deprecated/types/key.c:8-12 | No buffer, no elements, no room |
| CKeys.Keys.Destroy | deprecated/types/key.c:63-70 | Back to the initial state |
| CKeys.Keys.AddKey | deprecated/types/key.c:29-38 | When full the capacity expands. The key is appended and the earlier ones are kept |
| TypesKey.CreateKey | types/key.c:5-18 | A fresh key. An integer is copied, and a string is a fresh copy with the same characters |
| CConnections.Connection.Init | deprecated/types/connection.c:14-21 | Every field of the connection is null |
| CConnections.Connections.Init | deprecated/types/connection.c:6-12 | No buffer, no elements, no room |
| CConnections.Connections.Destroy | deprecated/types/connection.c:52-61 | Back to the initial state |
| CConnections.Connections.AddConnection | deprecated/types/connection.c:31-42 | When full the capacity expands. The connection is appended and the earlier ones are kept |
| CGraphs.Graph.Init | deprecated/types/graph.c:11-18 | No key, no nodes, no connections |
| CGraphs.Graph.AddNode | deprecated/types/graph.c:50-55 | The node is appended, and the key and connections are untouched |
| CGraphs.Graph.AddConnection | deprecated/types/graph.c:57-62 | The connection is appended, and the key and nodes are untouched |
| CGraphs.Graphs.Init | deprecated/types/graph.c:5-9 | No graphs |
| CGraphs.Graphs.AddGraph | deprecated/types/graph.c:43-48 | The graph is appended to the array |
| TypesGraph.Graph.constructor | types/graph.c:5-12 | A new graph has no nodes and no connections |
| TypesGraph.Graph.AddNode | types/graph.c:30-35 | The node is appended, and connections are untouched |
| TypesGraph.Graph.AddConnection | types/graph.c:37-42 | The connection is appended, and nodes are untouched |
| TypesNetwork.Network.constructor | types/network.c:5-10 | A new network has no graphs |
| TypesNetwork.Network.AddGraph | types/network.c:17-21 | The graph is appended |
| CNetworks.Networks.Init | deprecated/types/network.c:5-10 | No networks |
| CNetworks.Networks.AddNetwork | deprecated/types/network.c:27-32 | The network is appended |

## Left out

- I/O and the environment are parameters or left out: files, standard output, the prompt, `fmt`
  formatting, the clock, the process table, signals and the network. The JWT middleware, password
  hashing, the API worker queue, the node cache and the log-cache refresh from the log file
  (`updateLogCache`) are not part of this model.
- Mutexes and concurrency are not modelled. Every operation is atomic.
- Go strings are sequences of code points here. Where the source counts or slices bytes (the
  19-byte check and `line[:19]` in `parseLogEntry`), the model takes the string's UTF-8 bytes
  (Strings.Bytes), so a line with multi-byte characters is measured as Go measures it.
- ApiHelpers.Server.UpdateSettings: the source returns the error of `saveConfig`
  (internal/api_helpers.go:134), which writes the configuration file. That write is I/O and is not
  modelled, so the model never fails.
- `time.Time` is an integer instant, and durations are differences of instants, not formatted
  strings.
- NodeGet.GetAllEventEntries: Go's map order is unspecified, so the result is stated for some
  ordering of the events (a ghost out-parameter) rather than a fixed one.
- NodeGet.Summarize: the source dereferences a nil start time for an event that has an end but no
  start. The model returns an error there instead of crashing.
- NodeAdd.AddChild: validity of the tree is promised only for the node itself, not for its
  ancestors, whose footprints do not grow.
- Attachments.Store: the digest is a parameter. Compression and the attachment's entry link are not
  modelled.
- Logic.CompareEvents: the difference messages are constructors, not formatted text.
  `reflect.DeepEqual` on metadata and entries is datatype equality.
- NodeGet.GetTimeTrackingSummary: Go 1.22 per-iteration loop variables are assumed. Under older
  semantics `&entry` would alias the loop variable.
- Dashboard.ProcessLogsIntoGroups: modelled on values. The source links a block into its parent
  (or the top level) when it opens and fills it in place. The model attaches it when it closes, or
  at the end. Nothing joins the parent while the block is open, so the groups and their order are
  the same. A group of its own (`{ logs: [logEntry] }`) is the constructor `Loose`.
- Dashboard.GetCookieTwice: stated for two occurrences of "; name=" that do not overlap. Overlapping
  ones need a name that itself contains "; ", and for them only GetCookie's own contract applies.
- CppTypes.int8: C++ `char` is taken to be signed, as on x86-64 with GCC and Clang. Where it is
  unsigned, char keys of 0x80 and above order differently. `std::string` compares bytes as unsigned
  values, which for UTF-8 text is code-point order.
- C++ `double` is a real number or NaN. Infinities and rounding are not modelled.
- `std::variant`'s valueless state is not modelled, so the "void" type name is unreachable.
- Keys.Less: the C++ `KeyType` that `Key` wraps is not declared in any C++ file of the repository.
  It is taken to be `std::variant<int, char, std::string>`, as key.cpp's alternatives suggest,
  ordered by std::variant's `<`: the alternative index first, then the held value.
- SetMaps: the `KeyComparator` the set type names is never defined in the source. Key sets are
  ordered by Keys.Less and the map by the lexicographic order on the ordered sets.
- KeyTrees.KeyTree.Insert allocates the node the caller would have passed with `new KeyNode(k)`.
  The parent-keyed `insert` declared in heirarchy/keytree.h has no definition and is not modelled.
- KeyTrees.KeyTree.HasDescendantFrom: `hasDescendant` is declared in keynode.h but never defined. It
  is modelled as membership of the key in the subtree.
- KeyTreeSpec.RemoveFrom: a match with zero or one child never leaves the source's loop. The model
  runs the passes that change the tree and then reports `Diverges`, since later passes change
  nothing (KeyTreeSpec.DetachSettles). A match at the root reports `NullParent` instead of
  dereferencing null.
- KeyTrees.KeyTree.Print returns the printed lines as key sequences. The text formatting on
  standard output is not modelled.
- Memory.ExpandCapacity: C `int` overflow of the doubled capacity and of the element count is not
  modelled.
- `FREE` and the destroy functions release only the buffer here. Freeing each element is not
  modelled.
- The deprecated `addGraph` and `addNetwork` allocate with `sizeof` of the array type rather than the
  element pointer. The model gives the buffer the requested number of slots.
- The deprecated `createNetwork` calls `createGraphs`, which is not defined anywhere, and is not
  modelled.
- The print helpers of the C and C++ files and every `main` are not modelled.

## Findings

| source | as written | input that shows it | evidently intended | confidence | as-written member | corrected member |
|---|---|---|---|---|---|---|
| keytree.cpp:186 | While promoting in `remove(char)`, the replacement is erased with `replacement->children.erase(...)`, given an iterator into `replacement->parent->children`: a different vector, which is undefined behaviour | KeyTreeSpec.SampleCharTree: root 'e' with children 'c' (children 'a', 'b') and 'h'; removing 'e' picks leaf 'b', whose parent has two children, and reaches the erase | Erase the replacement from its parent's children and stop, as the int and string overloads do (keytree.cpp:119-123); then 'e' becomes 'b', 'c' keeps only 'a', and the call returns | not executed | KeyTreeSpec.CharOverloadUndefined | KeyTreeSpec.RemoveFrom |
