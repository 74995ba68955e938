# Telegram forwarding bot: a Dafny model of its core

This project models the core of a Telegram bot that re-forwards registered
channel messages to a set of groups. Each registered message is a
**descriptor**: the source chat, the message id, and optional keys such as
`dest_all`, `dest_list`, `send_count` and `delete_after`. The model covers:

- **The forwarding engine** (`forwarder.py`):
  - resolving each descriptor's destinations from the configuration, with the admin and the source channel filtered out;
  - forwarding to each destination in turn, where one failure does not stop the others;
  - counting successes into `send_count`;
  - scheduling a deletion job per successful forward when `delete_after > 0`;
  - saving the descriptor list once per non-empty cycle;
  - the scheduler life cycle: start, stop, re-schedule, status text and a single test forward.
- **The descriptor registry** (`message_manager.py`): registration with a duplicate check on `(from_chat_id, message_id)`, and deletion by index.
- **Named destination lists** (`simple_list_creator.py` and `menu_manager.py`):
  - the id-list parser, where commas and semicolons act as whitespace and every token must be an `int`;
  - list-name validation;
  - storing and deleting a list;
  - reading the list name out of a `delete_list_` callback.
- **The admin menu's other editing handlers** (`menu_manager.py`):
  - origin-channel validation, linking and unlinking;
  - adding a default destination without duplicates;
  - the global-interval label.

  The channel, destination and list handlers are modelled as written, but the bot handler routes none of the states the menu sets to them (see Findings).
- **The bot handler** (`bot_handler.py`):
  - the per-user conversation-state map;
  - reply-keyboard label recognition;
  - routing by conversation state, including the list name read with `split('_', 3)[3]`;
  - deleting a descriptor by its listed number, with Python's `pop` and negative indices.
- **Pure helpers** (`utils.py`): `is_admin`, `format_message_info` and `paginate_list`.

Modules:

- **`Wrappers`** — Option and Result.
- **`PyText`** — Python's `str.strip`, `str.split`, `str.replace`, `split(sep, n)[n]`, ASCII `lower()`, `int(str)` (sign, underscores, surrounding whitespace) and `str(int)`.
- **`Model`** — the configuration and descriptor documents, and a `Store` class standing for `config.json` and `mensajes.json`. Each save is counted, so that contracts can say how many writes an operation made.
- **`Scheduling`** — the APScheduler job table as a map from job id to job.
- **`Forwarding`** — forwarder.py.
- **`Messages`** — message_manager.py.
- **`Lists`** — the rules shared by both list editors.
- **`ListCreator`** — simple_list_creator.py.
- **`Menu`** — menu_manager.py.
- **`BotHandling`** — bot_handler.py.
- **`Utils`** — utils.py.

Modelling choices:

- **Telegram client.** It is an oracle: `Client(forward)` maps (destination, source chat, message, time) to `Forwarded(newId)`, a Telegram error or another exception.
- **Time and randomness.** Time is an integer number of seconds passed in as a parameter. The float timestamp that makes each deletion job id unique becomes a counter, `deletionStamp`, owned by the forwarder.
- **Loops and state.** Methods with loops are proved against specification functions: `Keep`, `Resolve`, `Attempts`, `Deletions`, `Process`, `CycleDescriptors`, `CycleDeletions`, `Schedule` and `ParseIds`. The lemmas state the source's promises about those functions.
- **Quirks kept as written:**
  - the broadcast interval is fixed at 60 seconds;
  - `update_interval` ignores its argument;
  - the forwarder filters `source_channel_id`, while the menu writes `origen_chat_id`;
  - `data.replace("delete_list_", "")` removes every occurrence, not only the prefix;
  - the forwarder does not consult a descriptor's `active` key.

## Model

| member | source | states |
|---|---|---|
| Forwarding.KeepMembers | forwarder.py:80-84 | a chat survives the admin/source filter iff it was in the input and is neither admin_id nor source_channel_id |
| Forwarding.KeepAppend | forwarder.py:81-84 | the filter works piecewise over a concatenation, so it never reorders the destinations it keeps |
| Forwarding.KeepAllAllowed | forwarder.py:81-84 | a list with nothing to exclude is kept unchanged |
| Forwarding.FilterDestinations | forwarder.py:81-84 | the append loop yields exactly the order-preserving filter Keep of destinos |
| Forwarding.ResolveDestinations | forwarder.py:73-99 | destination resolution of one descriptor equals the specification Resolve (dest_all default true, named list, empty/absent/unknown list gives none) |
| Forwarding.ResolveExcludes | forwarder.py:73-99 | neither the admin nor the source channel is ever a resolved destination, on either branch |
| Forwarding.ResolveAll | forwarder.py:74-86 | with dest_all true or absent, a chat is a destination iff it is in destinos and allowed |
| Forwarding.ResolveNamed | forwarder.py:87-99 | with a named list, an unknown name resolves to nothing, a known one to exactly its allowed members |
| Forwarding.Attempts | forwarder.py:109-115 | one forward outcome per destination |
| Forwarding.AttemptsAt | forwarder.py:109-115 | attempt k is the forward of the descriptor's message to destination k, in order |
| Forwarding.Successes | forwarder.py:116 | the success count never exceeds the number of attempts |
| Forwarding.DeletionsCount | forwarder.py:119-122 | one deletion per successful forward when delete_after is set and positive, none otherwise |
| Forwarding.DeletionsExact | forwarder.py:119-122 | a deletion of (chat, message) is scheduled iff deletion is enabled and a forward to that chat succeeded with that new message, at delete_after minutes after the cycle's single clock reading |
| Forwarding.DispatchSnoc | forwarder.py:109-133 | one more attempt adds exactly its own success and deletion, whatever happened before |
| Forwarding.ProcessOutcome | forwarder.py:101-136 | a descriptor with no destinations is skipped unchanged; otherwise successes plus failures equal the destinations, only send_count changes, it grows by the successes from a default of 0, and deletions match successes |
| Forwarding.CyclePreservesDescriptors | forwarder.py:71-154 | a cycle saves the same descriptors, same length and order; position j holds exactly what processing descriptor j gives (so ProcessOutcome's send_count rule applies element by element), changing only send_count and never lowering it |
| Forwarding.ScheduleAppend | forwarder.py:203-225 | scheduling deletions in two batches equals scheduling them in one |
| Forwarding.ScheduleKeepsTable | forwarder.py:215-225 | adding deletion jobs under fresh stamps keeps the job table well keyed and keeps every existing key |
| Forwarding.ScheduleAdds | forwarder.py:215-225 | scheduling adds exactly one job per deletion under its own key and leaves every existing job as it was |
| Forwarding.TwoDigits | forwarder.py:174 | two decimal digits whose value is the number |
| Forwarding.ClockText | forwarder.py:174 | `%H:%M:%S`: eight characters, colons at 2 and 5, hours < 24, minutes and seconds < 60, denoting the time of day |
| Forwarding.SingleBroadcastJob | forwarder.py:29-46 | while the forwarder is valid there is at most one broadcast job, and exactly 'forward_messages' while running |
| Forwarding.Forwarder.constructor | forwarder.py:11-15 | not running, no application, empty job table |
| Forwarding.Forwarder.ScheduleForwardingJob | forwarder.py:29-46 | any 'forward_messages' job is replaced by one every 60 seconds; nothing else in the table changes |
| Forwarding.Forwarder.StartForwarding | forwarder.py:17-27 | the application is kept, is_running becomes true, the scheduler is started only when not already running, and the broadcast job is (re)scheduled |
| Forwarding.Forwarder.StopForwarding | forwarder.py:158-163 | afterwards not running; the scheduler is shut down only if it was running; jobs and application kept |
| Forwarding.Forwarder.UpdateInterval | forwarder.py:178-182 | when running the broadcast job is re-scheduled at the fixed 60 seconds whatever the argument; when stopped nothing changes |
| Forwarding.Forwarder.GetStatus | forwarder.py:165-176 | "⏹️ Detenido" when stopped; when running "🔄 Activo - Próximo envío: " and the clock time of the earliest next run in the table |
| Forwarding.Forwarder.TestForwardSingleMessage | forwarder.py:184-201 | (False, "Aplicación no disponible") without an application; otherwise the verdict and reason of the one forward, touching no counter and no job |
| Forwarding.Forwarder.ScheduleMessageDeletion | forwarder.py:203-225 | adds (replacing) one date job deleting that chat's message `minutes` minutes later, under a fresh id |
| Forwarding.Forwarder.ForwardOne | forwarder.py:110-122 | one attempt, and a deletion job for it exactly when it succeeded and delete_after > 0 |
| Forwarding.Forwarder.ForwardToDestinations | forwarder.py:106-133 | every destination is attempted in order; ok counts the successes, ok + failed the destinations; the job table gains exactly the specified deletions |
| Forwarding.Forwarder.ProcessDescriptor | forwarder.py:72-136 | one descriptor's new value and deletions are those of the specification Process |
| Forwarding.Forwarder.ProcessAll | forwarder.py:71-141 | the loop over descriptors yields CycleDescriptors and schedules CycleDeletions, each descriptor processed on its own |
| Forwarding.Forwarder.ForwardAllMessages | forwarder.py:50-156 | without an application nothing is loaded or changed; an empty list returns unsaved; otherwise the reloaded config is adopted, the processed list is saved exactly once and the deletion jobs added |
| Scheduling.AtMostOneCycleJob | forwarder.py:36-46 | a table in which the cycle runs only under 'forward_messages' holds at most one broadcast job |
| Scheduling.Scheduler.Start | forwarder.py:22 | the scheduler runs, jobs kept |
| Scheduling.Scheduler.Shutdown | forwarder.py:161 | the scheduler stops, jobs kept |
| Scheduling.Scheduler.AddJob | forwarder.py:41-46 | a new id gets its job |
| Scheduling.Scheduler.AddJobReplacing | forwarder.py:217-225 | the id is bound to the job, replacing any previous one |
| Scheduling.Scheduler.RemoveJob | forwarder.py:35-38 | the id is gone; found tells whether it was present (the lookup error the source ignores) |
| Scheduling.Scheduler.EarliestRun | forwarder.py:170-172 | None iff the table is empty, else the earliest next-run time of any job |
| Model.Store.SaveConfig | utils.py:25-33 | config.json now holds the given configuration; messages untouched |
| Model.Store.SaveMessages | utils.py:47-55 | mensajes.json now holds the given descriptors; configuration untouched |
| Messages.NewDescriptor | message_manager.py:34-41 | the appended descriptor has the given identity, the given interval, dest_all and active true, send_count 0 |
| Messages.RegisterKeepsUnique | message_manager.py:25-43 | registering an unregistered (from_chat_id, message_id) keeps identities unique and makes it registered |
| Messages.RemoveAt | message_manager.py:92 | pop(index) in range: the element at index is gone, the others keep their order |
| Messages.RemoveKeepsUnique | message_manager.py:90-93 | removing keeps identities unique and the removed identity is no longer registered |
| Messages.AddMessage | message_manager.py:14-43 | no source chat: rejected, nothing loaded or saved; duplicate identity: rejected, unsaved; else exactly one descriptor appended and saved once |
| Messages.AddSharedMessage | message_manager.py:12-48 | the registration above with interval 600 |
| Messages.AutoAddMessage | message_manager.py:50-86 | the registration above with interval 60 |
| Messages.DeleteMessage | message_manager.py:88-98 | an index in range removes exactly that descriptor and saves once; any other index changes nothing |
| PyText.StripPadded | simple_list_creator.py:14 | strip() removes exactly whitespace margins: a trimmed text padded with whitespace strips back to itself |
| PyText.StripIgnoresPadding | simple_list_creator.py:14 | whitespace around a text does not change its strip() |
| PyText.StripEmptyIffSpace | simple_list_creator.py:14-15 | strip() is empty iff the text is all whitespace |
| PyText.StripStripped | simple_list_creator.py:14 | strip() is idempotent |
| PyText.Words | simple_list_creator.py:42 | split() yields non-empty whitespace-free words |
| PyText.WordsCons | simple_list_creator.py:42 | split() peels off a leading word followed by whitespace |
| PyText.ReplaceChar | simple_list_creator.py:41 | replace of one character changes exactly its occurrences |
| PyText.AfterSeparatorsSkip | bot_handler.py:158 | split(sep, n+1)[n+1] after a separator-free prefix and one separator is split(sep, n)[n] of the rest |
| PyText.AfterSeparatorsShort | bot_handler.py:158 | fewer separators than asked: split(sep, n)[n] raises IndexError |
| PyText.RemoveAllAbsent | simple_list_creator.py:81 | replace(p, "") leaves a text without p unchanged |
| PyText.RemoveAllPrefix | simple_list_creator.py:81 | replace(p, "") removes a leading p and carries on with the rest |
| PyText.LowerAscii | bot_handler.py:284 | lower() maps exactly the ASCII capitals to lower case |
| PyText.ParseIntOfStrip | bot_handler.py:290 | int() gives the same result on the stripped text, as the callers pass it; a result read after a leading '-' is never positive |
| PyText.ParseShow | simple_list_creator.py:47 | int(str(n)) == n, with str.isspace padding, which the callers have already stripped or split away |
| PyText.ParseShown | simple_list_creator.py:47 | int(str(n)) == n |
| PyText.Show | menu_manager.py:912 | str(n) is non-empty digits, with a leading '-' exactly for negatives |
| Lists.Spaced | simple_list_creator.py:41 | commas and semicolons become spaces, every other character is kept |
| Lists.SeparatorIsSpace | simple_list_creator.py:41-42 | a comma or semicolon splits tokens exactly as a space does |
| Lists.TokensAreStripped | simple_list_creator.py:42 | every token is non-empty and its own strip(), so the comprehension's filter removes nothing |
| Lists.ParseAll | simple_list_creator.py:45-47 | int() of every token, in order |
| Lists.Gather | simple_list_creator.py:44-52 | all values in order iff every int() succeeded, else the index of the first ValueError |
| Lists.ParseIds | simple_list_creator.py:44-52 | the ids in token order iff every token parses; otherwise the first token int() refuses |
| Lists.CollectIds | simple_list_creator.py:44-52 | the append loop, stopping at the first ValueError, computes ParseIds |
| Lists.ParseIdList | simple_list_creator.py:41-56 | no tokens gives "no destinations"; a bad token is refused and named; success gives a non-empty list, one id per token in order |
| Lists.ReadIdList | simple_list_creator.py:41-56 | the looping parser agrees with ParseIdList |
| Lists.JoinedIdsRoundTrip | menu_manager.py:912 | the list as echoed, `", ".join(map(str, ids))`, parses back to the same ids in the same order |
| Lists.CheckListName | simple_list_creator.py:14-27 | empty after strip iff all whitespace; accepted iff non-blank and not already a list; the accepted name is the stripped input |
| Lists.CheckIgnoresPadding | simple_list_creator.py:14 | surrounding whitespace never changes the verdict on a name |
| Lists.CheckAcceptsAccepted | simple_list_creator.py:14-27 | an accepted name is accepted again unchanged |
| Lists.WithList | simple_list_creator.py:59-61 | the name maps to the ids (replacing any old list, creating the mapping if absent); other lists and other keys untouched |
| Lists.DeleteList | simple_list_creator.py:82-85 | absent name: nothing to save; present: exactly that key removed, the rest of the configuration untouched |
| Lists.DeleteAfterStore | simple_list_creator.py:59-85 | deleting a list just stored restores the other lists as they were |
| Lists.StoredListResolves | forwarder.py:87-97 | a descriptor naming a stored list is forwarded to that list, filtered as always |
| Lists.KeepSameFilter | forwarder.py:95-97 | the filter depends only on admin_id and source_channel_id |
| Lists.ListNameFromCallback | simple_list_creator.py:81 | the extracted name is never longer than the data |
| Lists.CallbackNameRoundTrip | simple_list_creator.py:81 | a name not containing "delete_list_" is recovered intact from its callback |
| Lists.CallbackNameQuirk | menu_manager.py:139 | a name containing "delete_list_" loses it: the callback for "adelete_list_b" names "ab" |
| ListCreator.HandleListNameInput | simple_list_creator.py:12-30 | an accepted name sets the state "waiting_list_ids_" + name; an empty or taken name is refused with no state set |
| ListCreator.HandleListIdsInput | simple_list_creator.py:39-71 | a valid list is stored under the name, saved once and the state cleared; a bad token or no token changes nothing |
| ListCreator.HandleListCallback | simple_list_creator.py:73-95 | "list_create" sets "waiting_list_name"; a delete_list_ callback deletes and saves only an existing list; else nothing |
| ListCreator.CreatorStatesUnrouted | bot_handler.py:155-159 | as written, neither state the creator sets is routed anywhere |
| ListCreator.CreatorStatesRouted | bot_handler.py:155-159 | with the corrected routing, both states reach their handlers and the ids handler receives exactly the accepted name |
| Menu.ParseChannel | menu_manager.py:508-531 | after strip: '@' kept verbatim as a username; '-' read by int() or refused as an invalid id; anything else (and empty) a format error |
| Menu.NumericChannelRoundTrip | menu_manager.py:514-517 | a negative id, however padded, is linked as that number |
| Menu.UsernameRoundTrip | menu_manager.py:511-513 | a username, however padded, is linked exactly as typed |
| Menu.PositiveChannelRefused | menu_manager.py:524-531 | a non-negative number is refused as a format error |
| Menu.HandleChannelInput | menu_manager.py:503-538 | a valid channel is stored as origen_chat_id, saved once and the state cleared; a refused one changes nothing |
| Menu.UnlinkChannel | menu_manager.py:486-491 | origen_chat_id becomes None and is saved; nothing else changes |
| Menu.OriginIgnoredByForwarder | forwarder.py:78 | linking or unlinking the origin channel changes no descriptor's destinations |
| Menu.DestinationUpdate | menu_manager.py:944-952 | saves iff the text is an int not yet in destinos, appending it at the end; nothing else changes |
| Menu.DestinationUpdateNoDuplicates | menu_manager.py:950-951 | adding keeps destinos free of duplicates |
| Menu.DestinationUpdateIdempotent | menu_manager.py:950-967 | sending the same id again saves nothing |
| Menu.HandleDestinationInput | menu_manager.py:939-975 | the three replies (added with the new total, already present, invalid id) and a single save only when added |
| Menu.MenuStatesUnrouted | bot_handler.py:145-159 | as written, neither 'waiting_channel_id' nor 'waiting_list_ids:<name>', both set by the menu, is routed anywhere |
| Menu.MenuStatesRouted | bot_handler.py:145-159 | with the corrected routing, the channel state reaches the channel handler and the ids state hands back exactly the list name |
| Menu.HandleListNameInput | menu_manager.py:813-854 | an accepted name sets the state "waiting_list_ids:" + name; empty or taken names are refused with no state set |
| Menu.HandleListIdsInput | menu_manager.py:861-902 | a valid list is stored and saved once, the state left as it was; a bad token or no token changes nothing |
| Menu.DeleteNamedList | menu_manager.py:787-811 | removes and saves only an existing list; otherwise nothing changes |
| Menu.HandleDeleteListCallback | menu_manager.py:935-937 | the list named by the data with every "delete_list_" removed is deleted as above |
| Menu.GlobalIntervalLabel | menu_manager.py:564 | a configuration without intervalo_global is labelled "1 minuto" |
| Menu.IntervalLabelReadsMinutes | menu_manager.py:646-656 | off the four presets the label is a number m int() reads back, then " minutos", with 60m <= seconds < 60m + 60 |
| Menu.LabelByWholeMinutes | menu_manager.py:646-656 | apart from one minute and one hour, the label depends only on the whole minutes |
| BotHandling.SetThenGet | bot_handler.py:214-220 | after set, the user reads the new state and every other user reads what they did before |
| BotHandling.ClearThenGet | bot_handler.py:218-224 | after clear the user has no state, others keep theirs, clearing is idempotent and clearing an absent user changes nothing |
| BotHandling.IsKeyboardCommand | bot_handler.py:226-237 | None or empty text is no command; otherwise a command iff its strip() is one of the sixteen labels |
| BotHandling.PaddedLabelIsCommand | bot_handler.py:237 | a label surrounded by whitespace is recognised |
| BotHandling.ViewMessagesNotACommand | bot_handler.py:170 | the label the dispatcher uses for the message list ("📝 Ver Mensajes") is not one of the recognised labels (which hold "📋 Ver Mensajes") |
| BotHandling.ListNameAfterPrefix | bot_handler.py:157-158 | for "awaiting_list_ids_" + name the extracted list name is name exactly, whatever underscores it holds |
| BotHandling.ListNameOfBarePrefix | bot_handler.py:157-158 | for the bare "awaiting_list_ids" the extraction raises IndexError |
| BotHandling.AfterThirdSeparator | bot_handler.py:158 | after three underscore-free fields, split('_', 3)[3] is the rest |
| BotHandling.ConversationRoute | bot_handler.py:142-159 | agrees with the routing as written wherever that routes, and also routes the creator's waiting_list_ states and the menu's waiting_channel_id and waiting_list_ids: states |
| BotHandling.PyIndex | bot_handler.py:292 | pop(n) succeeds iff -len <= n < len, at the index congruent to n modulo len |
| BotHandling.Select | bot_handler.py:284-292 | a selected index is always in range |
| BotHandling.SelectNumber | bot_handler.py:290-292 | typing k selects what pop(k - 1) removes, or nothing where pop raises |
| BotHandling.SelectListedNumber | bot_handler.py:290-292 | typing the 1-based position k shown in the list selects the k-th descriptor |
| BotHandling.SelectCountsFromEnd | bot_handler.py:290-292 | typing 0 selects the last descriptor, -1 the one before, and so on |
| BotHandling.SelectOutOfRange | bot_handler.py:290-292 | numbers past the end or below -len + 1 select nothing |
| BotHandling.SelectPhrase | bot_handler.py:284 | any text whose lower() is "eliminar todos" selects every descriptor, whatever the list |
| BotHandling.SelectPhraseAnyCase | bot_handler.py:284 | "Eliminar Todos" and "ELIMINAR TODOS" both delete everything, on any list |
| BotHandling.Reply | bot_handler.py:292-297 | the reply is "invalid format" iff nothing is saved, and agrees with the reply as written whenever the descriptor has an id |
| BotHandling.DeletedRegisteredReportsInvalid | bot_handler.py:292-297 | as written, deleting a registered descriptor saves the shorter list yet answers "Formato inválido" |
| BotHandling.BotHandler.SetUserState | bot_handler.py:214-216 | that user's state is set, every other entry kept |
| BotHandling.BotHandler.GetUserState | bot_handler.py:218-220 | the user's state when present, None otherwise |
| BotHandling.BotHandler.ClearUserState | bot_handler.py:222-224 | that user's entry is removed, harmlessly if absent |
| BotHandling.BotHandler.HandleDeleteAllMessages | bot_handler.py:274-297 | with no descriptors nothing changes; otherwise the state is cleared and the selected deletion (all, one by pop index, or none) is saved once, with the intended reply |
| Utils.AdminNeverForwardedTo | utils.py:57-59 | the user is_admin accepts (user_id equal to admin_id) is never a resolved destination |
| Utils.DestinationText | utils.py:80 | "Todos" iff dest_all is absent or true, otherwise starting "Lista: " |
| Utils.DestinationTextMatchesForwarder | utils.py:80 | "Todos" means every allowed configured destination; a named list means that list, or nothing when unknown |
| Utils.FormatOpensWithPosition | utils.py:81 | the line opens with the 1-based position, which int() reads back, then ". ID: " and the message id |
| Utils.FormatClosesWithDestination | utils.py:81 | the line closes with the destination text |
| Utils.SliceBound | utils.py:85-87 | a slice bound is clamped into 0..len and unchanged when already inside |
| Utils.PageContents | utils.py:83-87 | the page holds the next min(k, len - page*k) items in order, and has_more iff page*k + k < len |
| Utils.MoreMeansNextPage | utils.py:87 | has_more iff the next page is not empty |
| Utils.PagesCover | utils.py:83-87 | the first n pages laid end to end are the first min(n*k, len) items: nothing lost, nothing reordered |

## Left out

- Telegram itself: forward_message, delete_message, reply_text and edit_message_text are an oracle or are left out, and reply texts are reduced to reply values.
- The firing of jobs by APScheduler, and `_delete_message` (forwarder.py:232-238): the model stops at the job table.
- `asyncio.sleep(0.5)` and all asynchronous interleaving: every handler runs to completion on its own.
- JSON file I/O (utils.py:13-55): the `Store` class stands for the two files. A missing or corrupt file reading as empty is not modelled.
- A JSON null is not modelled: None stands for an absent key only. The bot itself writes a null only into origen_chat_id (menu_manager.py:490), which the forwarder never reads.
- pytz, timezones and `datetime.now()`: GetStatus renders the next-run time as seconds modulo a day, with no time zone.
- Forwarding.Forwarder.GetStatus: a job with no next run time (a paused job) is not modelled. So while running, the table is never empty and the plain "🔄 Activo" is not reached.
- The float timestamp in deletion job ids (forwarder.py:215) becomes the counter `deletionStamp`.
- Forwarding.Forwarder.ScheduleMessageDeletion: its catch-all except (forwarder.py:229-230) cannot fire in the model.
- The per-descriptor catch-all (forwarder.py:140-141): a descriptor always has from_chat_id and message_id here, so nothing raises outside the per-destination handlers. A descriptor lacking those keys is not modelled.
- Forwarding.ProcessAll: it models the in-place update of `msg['send_count']` inside the loaded list as building the new list descriptor by descriptor. The list is local to the cycle, so no aliasing is lost.
- Forwarding.DeletionsExact / Forwarding.Attempts: the clock is read once per cycle, and every forward and deletion of the cycle uses that one time. The source reads `datetime.now` again for each deletion (forwarder.py:211), after the awaited forwards and the 0.5 s sleeps before it, so the k-th deletion runs at least 0.5·(k−1) s later than the model's `now + 60 * delete_after`.
- Forwarding.Attempts: the client is a deterministic function of (destination, source, message, time). Two attempts with the same arguments in one cycle are therefore assumed to give the same result.
- The generic `except Exception` of the menu's ids handler (menu_manager.py:918-925) is left out. Nothing inside it can raise once the input is a string.
- int() accepts only ASCII digits here. Python also accepts other Unicode decimal digits.
- PyText.ParseInt / PyText.ParseIntOfStrip / PyText.ParseShow: int() here skips str.isspace whitespace, which includes U+001C..U+001F. Python's int() does not skip those four and raises ValueError on them. Every caller strips or splits the text first (bot_handler.py:290, menu_manager.py:517, :879, :945, simple_list_creator.py:47), so no behaviour of the bot depends on the difference.
- lower() folds only ASCII capitals.
- All `show_*` rendering and Markdown texts, and the stray code at menu_manager.py:315-318.
- The success-rate float at menu_manager.py:637.
- `validate_timezone` and `get_current_time` (utils.py:61-75).
- main.py: polling, signals, handler registration and the `active` filter at main.py:180.
- Menu.HandleChannelInput, Menu.HandleDestinationInput, Menu.HandleListNameInput and Menu.HandleListIdsInput: nothing in the source calls these handlers. handle_conversation_state (bot_handler.py:145-159) has no branch for 'waiting_channel_id' (menu_manager.py:484) or 'waiting_list_ids:<name>' (menu_manager.py:854). Nothing reads the `chat_data['waiting_dest_id']` flag (menu_manager.py:118). request_list_name (menu_manager.py:717) sets 'waiting_list_name', the same state the list creator sets (simple_list_creator.py:79), so even the corrected routing sends it to the creator's handler. Menu.HandleListNameInput therefore stays unreachable. Its 'waiting_list_ids:<name>' state, the only way into the menu's ids handler, is then never set. The model states each handler on its own entry point.
- The state 'awaiting_delete_selection' set at bot_handler.py:271 is never routed, and no modelled caller reaches handle_delete_all_messages. The model gives that handler its own entry point.
- bot_handler.py:148 calls a `handle_destination_input` the bot handler does not define, and bot_handler.py:195 calls a `handle_delete_list_callback` the creator does not define. The model states the menu's and the creator's handlers themselves.
- menu_manager.py:558 reads the forwarder's status as a dict, but get_status returns a string; the menu's status screen is left out. Only its interval label is modelled.
- The listing texts of show_simple_messages_list and show_simple_delete_messages read `m['id']`, which registered descriptors do not have. Rendering is not modelled.

## Findings

| source | as written | input that shows it | evidently intended | confidence | as-written member | corrected member |
|---|---|---|---|---|---|---|
| bot_handler.py:155-159 | the router sends a message on only for the states starting 'awaiting_list_name' or 'awaiting_list_ids', but the list creator sets 'waiting_list_name' and 'waiting_list_ids_<name>' (simple_list_creator.py:30, 79) | state "waiting_list_name" after the admin taps "list_create": ConversationRouteAsWritten gives NoRoute, so the typed name is never handled | the creator's states reach handle_list_name_input and handle_list_ids_input, with the list name read after the third underscore | medium (not executed) | ListCreator.CreatorStatesUnrouted | ListCreator.CreatorStatesRouted |
| bot_handler.py:295 | after popping and saving, the reply reads `deleted['id']`; registered descriptors have no 'id' key (message_manager.py:34-41), so the KeyError is caught by the bare except and "Formato inválido" is answered after a deletion that did happen | one registered descriptor, text "1": the list is saved empty and the reply is InvalidFormat | the reply reports the deletion (with the id the descriptor may have) | high (not executed) | BotHandling.DeletedRegisteredReportsInvalid | BotHandling.Reply |
| bot_handler.py:145-159 | the router has no branch for the states the menu sets: 'waiting_channel_id' (menu_manager.py:484) and 'waiting_list_ids:<name>' (menu_manager.py:854) | state "waiting_channel_id" after the admin taps link channel: ConversationRouteAsWritten gives NoRoute, so the typed channel is never linked | the menu's states reach handle_channel_input and handle_list_ids_input, the list name read after the colon. The menu's 'waiting_list_name' (menu_manager.py:717) collides with the creator's state and is routed to the creator, so the 'waiting_list_ids:' route is reached only if the menu's name handler is routed too | medium (not executed) | Menu.MenuStatesUnrouted | Menu.MenuStatesRouted |
