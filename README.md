# LOOT plugin view-model and filter pipeline, modelled in Dafny

This project models two pieces of the client side of LOOT's GUI: the `Plugin` record class and the `filters` pipeline. LOOT is a load-order tool for Bethesda games.

- **The `Plugin` record.** It turns the engine's raw plugin data into display fields:
  - a zero-padded upper-case hex CRC;
  - flattened messages carrying a `hidden` flag;
  - added and removed Bash Tag strings, where a case-insensitive clash is resolved in favour of "removed";
  - a priority string, a "has user edits" flag and a whitespace-free id.

  It answers the card's search predicate `isVisible`. A change observer keeps the five dashboard counters in step when a record's `messages` or `isDirty` field is replaced.
- **The filter pipeline.**
  - The message filters (notes, "Do not clean", all messages) and the plugin filters (messageless, inactive, conflicts, search) are predicates.
  - The driver `applyPluginFilters` composes the plugin filters with a short-circuit `&&`. It yields the filtered list, the hidden-plugin count and the hidden-message count. The messageless filter runs first, so its tally covers every plugin.
  - `applyMessageFilters` sets each message's `hidden` flag.
  - The response processing of `getConflictingPluginsFromFilter` builds the conflict list. It also copies each response entry into the first record with the same name.

Files:

- `wrappers.dfy`: `Option`, `Result`, and the three JavaScript `TypeError`s the model represents.
- `seqs.dfy`: order-preserving sub-lists, lists without repeats, and slicing facts, for any element type.
- `text.dfy`: `toLowerCase`/`toUpperCase` (ASCII), `indexOf`, `join` and `replace(/\s+/g, '')`.
- `numerals.dfy`: `Number.prototype.toString(radix)` and the value of a digit string.
- `plugins.dfy`: `plugin.js`.
- `filters.dfy`: `filters.js`.

## How the JavaScript is modelled

- **Classes.**
  - A `Plugin` is a class. The fields the code reassigns (`isEmpty`, `isDirty`, `crc`, `messages`, `tags`) and the UI flags are `var`s. The rest are `const`s.
  - The dashboard's DOM counters are the fields of `Dashboard`.
  - The bare globals `hiddenPluginNo` and `hiddenMessageNo`, together with `filters.conflicts`, are the fields of `FilterSession`.
  - The filter checkboxes, the search box and the translated "Do not clean" phrase form a `FilterState` value.
- **Exceptions.** A JavaScript `TypeError` is the `Err` case of a `Result`. The model represents the three TypeErrors below; the others the source can raise are listed under "TypeErrors the model cannot represent" in Left out.
  - `_convMessages` reads `content[0].str` from a message with no content (`MissingContent`).
  - `_convTags` keeps comparing after splicing out the name at index 0, and so reads `tagsAdded[-1]` (`IndexBeforeStart`).
  - After a conflict merge, `toLowerCase` is called on a raw CRC number or `.added` is read from a raw tag array (`NotAString`).
- **Merged fields.** `crc` and `tags` are sum types, either the converted strings or the raw value a conflict merge stored. This is how the model shows that the merge skips the converters.
- **The observer.** `Object.observe` becomes the synchronous setters `Dashboard.SetMessages` and `Dashboard.SetDirty`. The merge calls them at the two observed assignments.
  - Assigning a new `messages` list always produces a change record.
  - Assigning `isDirty` its current value produces none, since `Object.observe` reports only real changes. When a record is produced, the dirty counter moves by ±1 according to the new value only.
- **The pipeline driver.**
  - The loop over the plugins (`PluginFilterPass`) works on values: it returns the list and the two counters. `FilterSession.ApplyPluginFilters` stores them.
  - `messagelessFilter` takes the running hidden-message counter as an argument and returns it incremented. This replaces the increments of the global.
  - The result is specified by `PassResult`: the selected plugins in order and both counters. If a search throws, it is the first throwing plugin's exception with the counters as they stood at that point.

### Quirks of the code that the model keeps

- **Note type.** Notes are recognised by the type `'say'` (`filters.js:113`), not `note`.
- **Missing getters.** `searchFilter` calls `getCrcString()` and `getTagStrings()`, which `Plugin` does not define. The model reads the `crc` and `tags` fields instead; the `TypeError` the source raises there is listed under Left out.
- **Message shape.** `plugin.js` flattens a message's content to its first string. `filters.js` reads `content[0].str` again. The model keeps one abstract "first content string" per message for both; the `TypeError`s the two shapes raise are listed under Left out.
- **CRCs of 2^32 or more.** These keep only their last 8 hex digits (`ConvCrcTruncates`). Below 2^32 the CRC is zero-padded (`ConvCrcPadded`).
- **Tag resolution crash.** It is the possible crash in `_convTags` described under Exceptions. `ResolutionThrows` characterises exactly the inputs that reach it, and `ResolutionExamples` gives one input that throws and one that does not.
- **`searchFilter` with no match.** It falls off its end and returns `undefined`, which the driver treats as false. Unlike `isVisible`, it searches hidden messages too, and it does not honour the card's hide toggles.
- **The dirty counter.** It follows the new value only, so the counters stay right only when every observed change is a real change. `DriftKept` states what is preserved: every counter minus the matching total over the records.

## Model

| member | source | states |
|---|---|---|
| Plugins.ConvCrc | src/gui/html/js/plugin.js:106-113 | the CRC string is empty exactly when the CRC is absent or zero |
| Plugins.ConvCrcFormat | src/gui/html/js/plugin.js:106-113 | a non-zero CRC gives exactly 8 upper-case hex digits whose value is the CRC modulo 2^32 |
| Plugins.ConvCrcPadded | src/gui/html/js/plugin.js:110-111 | below 2^32 the string is the upper-case hex digits left-padded with `'0'` to length 8 |
| Plugins.ConvCrcTruncates | src/gui/html/js/plugin.js:110-111 | from 2^32 on the hex digits are longer than 8 and only the last 8 are kept |
| Numerals.ValueOfRadix | src/gui/html/js/plugin.js:111 | reading back the digits `toString(radix)` writes gives the number |
| Plugins.ConvMessages | src/gui/html/js/plugin.js:115-127 | throws exactly when some message has no content; otherwise an absent list gives `[]`, and each message keeps its type and position, takes its first content string and is not hidden |
| Plugins.PartitionTags | src/gui/html/js/plugin.js:133-141 | the first loop yields the added names and the removed names (prefix stripped), each in input order; an absent list gives two empty lists |
| Plugins.PartitionSizes | src/gui/html/js/plugin.js:133-141 | every tag goes to exactly one of the two lists |
| Plugins.PartitionPlacesEachTag | src/gui/html/js/plugin.js:134-140 | each tag lands in the list its leading `-` selects, right after the earlier tags of the same list |
| Plugins.SpliceMatch | src/gui/html/js/plugin.js:145-151 | the inner loop splices the name out iff some removed name matches it case-insensitively; it throws iff the name sat at index 0 and matched a removed name that is not the last |
| Plugins.ResolveTags | src/gui/html/js/plugin.js:142-152 | the resolution loop throws exactly on the inputs `ResolutionThrows` describes, and otherwise leaves the added names that match no removed name |
| Plugins.SurvivorsSpec | src/gui/html/js/plugin.js:142-152 | what resolution leaves is an order-preserving sub-list of the added names holding exactly those that match no removed name |
| Plugins.SurvivorsMatchNothing | src/gui/html/js/plugin.js:142-152 | no remaining added name case-insensitively equals a removed name |
| Plugins.SurvivorsEmpty | src/gui/html/js/plugin.js:142-152 | nothing is left exactly when every added name matches some removed name |
| Plugins.NoClashKeepsAll | src/gui/html/js/plugin.js:144-152 | without a clash the added list is unchanged and the loop cannot throw |
| Plugins.ResolveCrash | src/gui/html/js/plugin.js:148-149 | reaching the read of `tagsAdded[-1]` implies `ResolutionThrows` |
| Plugins.ResolutionExamples | src/gui/html/js/plugin.js:144-152 | `Foo` against removed `foo, bar` throws; against `bar, foo` it does not, and `Foo` is removed |
| Plugins.ConvTags | src/gui/html/js/plugin.js:129-157 | throws exactly when the resolution does; otherwise returns the survivors and the unaltered removed names, each joined with `", "` |
| Text.StripSpaces | src/gui/html/js/plugin.js:55 | the id is an order-preserving sub-list of the name, without whitespace, as long as the name less its whitespace characters |
| Text.StripSpacesUnique | src/gui/html/js/plugin.js:55 | a whitespace-free sub-list of the name that long is the id, so the ensures of `StripSpaces` fix every character, its order and multiplicity |
| Text.SpaceFreeBound | src/gui/html/js/plugin.js:55 | no whitespace-free sub-list of a string is longer than its non-whitespace part |
| Text.StripSpacesMembers | src/gui/html/js/plugin.js:55 | a character is in the id exactly when it is in the name and is not whitespace |
| Text.StripSpacesNoSpaces | src/gui/html/js/plugin.js:55 | a name without whitespace is its own id |
| Plugins.Plugin.constructor | src/gui/html/js/plugin.js:28-64 | the record holds the raw fields, the converted CRC, messages and tags, the stripped id, and all UI flags false |
| Plugins.Plugin.Create | src/gui/html/js/plugin.js:28-64 | construction throws exactly when the messages or the tags conversion throws (the messages first, so their error wins); otherwise a fresh record reflecting the raw data |
| Plugins.Plugin.HasUserEdits | src/gui/html/js/plugin.js:70-76 | true iff a userlist is present and has two distinct keys |
| Plugins.Plugin.Priority | src/gui/html/js/plugin.js:78-84 | empty iff the priority is absent or zero; otherwise a canonical decimal literal whose value is the priority |
| Numerals.DecimalRoundTrip | src/gui/html/js/plugin.js:82 | `toString()` of an integer is a canonical decimal literal denoting it |
| Plugins.Plugin.IsVisible | src/gui/html/js/plugin.js:86-104 | the empty needle and a name match give true; otherwise true iff the needle is in the version, CRC or tags (each only while not hidden) or in a message that is not hidden; a version or CRC-string match returns true before the CRC or tags are read, a tag match before the messages, and it throws only on the first raw CRC or tag list it reads |
| Plugins.AnyMessageFound | src/gui/html/js/plugin.js:97-101 | the message loop finds a match iff some message, hidden ones skipped when asked, contains the needle |
| Text.IndexOfSpec | src/gui/html/js/plugin.js:87 | `indexOf` returns the first occurrence, and -1 exactly when there is none |
| Text.ContainsIffOccurs | src/gui/html/js/plugin.js:87 | `indexOf(...) != -1` holds exactly when the needle occurs somewhere |
| Text.ContainsEmpty | src/gui/html/js/plugin.js:87 | the empty needle occurs in every string |
| Plugins.CountKindSpec | src/gui/html/js/plugin.js:175-192 | the per-type count is the number of positions holding a message of that type |
| Plugins.CountTypes | src/gui/html/js/plugin.js:175-192 | the counting loops give the number of `'warn'` and of `'error'` messages |
| Plugins.Dashboard.ObserveMessages | src/gui/html/js/plugin.js:162-198 | total and filtered total move by the change in length, warnings and errors by the change in their counts, and the dirty counter stays |
| Plugins.Dashboard.ObserveDirty | src/gui/html/js/plugin.js:199-206 | the dirty counter goes up by one for a true value and down by one otherwise |
| Plugins.Dashboard.SetMessages | src/gui/html/js/plugin.js:162-198 | replacing the messages stores them and moves the counters by the old and new lists' counts |
| Plugins.Dashboard.SetDirty | src/gui/html/js/plugin.js:199-206 | setting the dirty flag stores it and moves the dirty counter only when the value changed |
| Plugins.States | src/gui/html/js/plugin.js:162-206 | one state per record, in order, each that record's observed fields |
| Plugins.TotalsUpdate | src/gui/html/js/plugin.js:162-206 | replacing one record's state moves each grand total by that record's change |
| Plugins.DriftKept | src/gui/html/js/plugin.js:162-206 | an observed change keeps every counter's difference from the total over the records |
| Filters.NoteFilter | src/gui/html/js/filters.js:111-117 | with hide-notes on, a message passes iff its type is not `'say'`; with it off every message passes |
| Filters.DoNotCleanFilter | src/gui/html/js/filters.js:119-125 | with hide-do-not-clean on, a message passes iff the phrase does not occur in its text (case-sensitive); with it off every message passes |
| Filters.AllMessageFilter | src/gui/html/js/filters.js:127-129 | messages are allowed iff hide-all-messages is off |
| Filters.MessageFiltersSpec | src/gui/html/js/filters.js:111-125 | with its toggle on, the note filter rejects exactly type `'say'` and the do-not-clean filter exactly the messages containing the phrase (case-sensitive); with it off, each passes everything; neither reads `hidden` |
| Filters.CountFailingSpec | src/gui/html/js/filters.js:45-54 | the messageless loop counts each rejected message once; the tally is the whole list exactly when no message passes |
| Filters.MessagelessRejectsOnlyFullyHidden | src/gui/html/js/filters.js:59-63 | with hide-messageless on, a plugin is rejected exactly when every message is counted hidden, so one without messages always is |
| Filters.MessagelessFilter | src/gui/html/js/filters.js:35-64 | the counter grows by the rejected messages when messages are allowed and by all of them otherwise; the verdict is "some message passes" under hide-messageless, else true |
| Filters.InactiveFilter | src/gui/html/js/filters.js:66-72 | with hide-inactive on, a plugin passes iff it is active; with it off every plugin passes |
| Filters.ConflictsFilter | src/gui/html/js/filters.js:74-80 | an empty conflict list passes every plugin; otherwise a plugin passes iff its name equals an entry (case-sensitive) |
| Filters.SearchFilter | src/gui/html/js/filters.js:9-33 | the search predicate on one plugin, with the raw-field reads that throw; its properties are `SearchFilterSpec` |
| Filters.SearchFilterSpec | src/gui/html/js/filters.js:9-33 | an empty needle or a name match passes; otherwise it passes iff the needle is in the CRC, version, a tag string or any message text, and it throws only on a raw CRC or tag list |
| Filters.SearchAgreesWithVisible | src/gui/html/js/filters.js:9-33 | with nothing hidden, the search filter and `isVisible` never throw on converted records and agree whenever neither throws; this holds in the model, where both read the `crc` and `tags` fields and one message shape, not for the source's missing getters and differing message reads |
| Filters.NeverThrows | src/gui/html/js/filters.js:9-26 | an empty search box, or only converted records, means no plugin's filters throw the modelled `TypeError`; the reads the model cannot represent are listed under Left out |
| Filters.FilterOne | src/gui/html/js/filters.js:88-98 | one loop body adds that plugin's hidden-message tally whatever the verdict and yields that plugin's verdict |
| Filters.SelectSpec | src/gui/html/js/filters.js:88-97 | keeping the elements whose verdict is true yields an order-preserving sub-list holding exactly them |
| Filters.SelectedSpec | src/gui/html/js/filters.js:88-97 | the filtered list is an order-preserving sub-list holding exactly the plugins that pass all four filters |
| Filters.FirstThrowerSpec | src/gui/html/js/filters.js:88-99 | the stopping point is the list's length iff nothing throws, and otherwise the unique first plugin that throws |
| Filters.TotalTallyBound | src/gui/html/js/filters.js:45-57 | the hidden-message count never exceeds the messages of all plugins, and equals it when all messages are hidden |
| Filters.PassResultSpec | src/gui/html/js/filters.js:82-105 | the pass succeeds iff no plugin throws; then it yields exactly the passing plugins in order, the hidden-plugin count plus the result's length is the number of plugins, and `hiddenMessageNo` sums every plugin's tally (rejected ones too); otherwise the first thrower's exception and the counters up to it |
| Filters.PassedPluginsPassEachFilter | src/gui/html/js/filters.js:88-97 | a successful pass keeps exactly the plugins that show a message (under hide-messageless), are active (under hide-inactive), are named in a non-empty conflict list, and match the search |
| Filters.InspectedPluginKept | src/gui/html/js/filters.js:74-80 | with a designated plugin and its conflict list, a plugin of that name always passes the conflicts filter, and every kept plugin is named in the list |
| Filters.PluginFilterPass | src/gui/html/js/filters.js:82-105 | the loop, starting both counters at 0 and searching for the lower-cased term, returns `PassResult` |
| Filters.FilterSession.ApplyPluginFilters | src/gui/html/js/filters.js:82-105 | the result and both global counters are `PassResult` of the plugins as they were on entry |
| Filters.FilterTwice | src/gui/html/js/filters.js:82-105 | two consecutive `applyPluginFilters` calls on one session return the same list (or exception), and the counters end as the first call left them |
| Filters.MarkHidden | src/gui/html/js/filters.js:133-135 | each message's `hidden` becomes "rejected by the note or the do-not-clean filter"; its properties are `MarkHiddenSpec` |
| Filters.ApplyMessageFilters | src/gui/html/js/filters.js:131-137 | with messages allowed, each message's `hidden` becomes "rejected by a message filter"; with hide-all on nothing changes |
| Filters.MarkHiddenSpec | src/gui/html/js/filters.js:131-137 | marking keeps each message's type and text (so the type counts), is idempotent, and hides as many messages as the messageless tally counts |
| Filters.Keys | src/gui/html/js/filters.js:158 | the response's keys in the order `for ... in` visits them, one per entry |
| Filters.ConflictNames | src/gui/html/js/filters.js:140-182 | the list the promise resolves to; its properties are `ConflictNamesSpec` |
| Filters.ConflictingKeysSpec | src/gui/html/js/filters.js:158-161 | the pushed keys are an order-preserving sub-list of the response keys holding exactly the conflicting ones |
| Filters.ConflictNamesSpec | src/gui/html/js/filters.js:140-182 | no designated plugin gives `[]`; a falsy response gives the designated plugin alone; otherwise it comes first, then the conflicting keys in order, each once when the keys are distinct |
| Filters.ConflictNamesRepeat | src/gui/html/js/filters.js:157-161 | the designated plugin appears twice when the response lists it as conflicting |
| Filters.UnhiddenKeeps | src/gui/html/js/filters.js:167 | the stored messages are the entry's, in order, each keeping its type and text and reading as not hidden (a raw message has no `hidden` property), so the per-type counts the observer takes equal the entry's and none is counted hidden |
| Filters.EntryForKey | src/gui/html/js/filters.js:158-171 | with distinct keys, a record named like a key ends with that key's entry, and one named like no key keeps no entry |
| Filters.CopyMessages | src/gui/html/js/filters.js:164-167 | the raw CRC, emptiness and messages (not hidden) are stored, and the counters move as the observer moves them |
| Filters.CopyDirty | src/gui/html/js/filters.js:168-169 | the raw tags and dirtiness are stored, and the counters move as the observer moves them |
| Filters.MergeEntry | src/gui/html/js/filters.js:162-171 | the entry is copied into the first record with that name only, every other record is unchanged, and the counters keep their drift |
| Filters.MergeAtFirst | src/gui/html/js/filters.js:162-171 | writing the first record with the key is the merge step over all records |
| Filters.MergeMissing | src/gui/html/js/filters.js:162-171 | an entry whose key names no record changes nothing |
| Filters.AfterMergeStep | src/gui/html/js/filters.js:158-172 | one more entry rewrites the first record named by its key, over what the earlier entries left there, and leaves every other record as it was |
| Filters.GetConflictingPlugins | src/gui/html/js/filters.js:140-183 | returns the conflict list; the first record named by a key ends with that key's entry (raw CRC and tags, messages not hidden), the others unchanged; the counters keep their drift |

## Left out

- DOM reads and writes. The checkbox `.checked` reads and the search box value are the fields of `FilterState`. The dashboard counters are fields instead of `parseInt`/`textContent` round trips. The final `textContent` writes of `applyPluginFilters` are not modelled.
- `setFilteredUIData`, `restoreFilterStates` and `applyEnabledFilters`. They are UI wiring that publishes lists and dispatches events.
- The asynchronous part of `getConflictingPluginsFromFilter`. That means `loot.query`, `JSON.parse`, the promises, the progress dialogs and `.catch(processCefError)`. The model starts from an already parsed response (`None` for a falsy one). The value on a transport failure is decided by code that is not part of this model.
- The order of a JavaScript object's keys. The response is a sequence of key–entry pairs taken in the order `for ... in` visits them.
- Filters.GetConflictingPlugins: requires the response keys to be distinct. `JSON.parse` keeps one value per key and `for ... in` visits each key once, so a parsed response cannot repeat a key; how `JSON.parse` treats a repeated key in the text is not modelled.
- `Object.observe` delivery. Change records are delivered asynchronously and in batches; the model applies the observer synchronously at each assignment. The `Object.observe` registration in the constructor is not modelled.
- `jsonToPlugin`, the l10n module, the C++ engine and the build scripts are not part of this model. The translated "Do not clean" phrase is a field of `FilterState`.
- Unicode case mapping. `toLowerCase`/`toUpperCase` map only ASCII letters.
- Message shape. Messages are reduced to a type, one content string and the `hidden` flag. A merged entry's messages are taken in that same shape, not hidden, and conditions are dropped.
- TypeErrors the model cannot represent. The model reads the `crc` and `tags` fields and one message shape, so these source errors do not arise in it:
  - `searchFilter` calls `getCrcString()` and `getTagStrings()`, which `Plugin` does not define (`filters.js:15`, `filters.js:21`).
  - `searchFilter` reads `content[0].str` of a record's flattened message, whose `content` is a string (`filters.js:29`).
  - `doNotCleanFilter` makes the same read when hide-do-not-clean is on, also from inside `messagelessFilter` (`filters.js:121`, `filters.js:47-48`).
  - `isVisible` calls `content.toLowerCase()` on a merged raw message, whose `content` is an array (`plugin.js:98`).
- Absent merged messages. An entry's `messages` is always a list in the model. The source's observer counts an absent list as 0 (`plugin.js:172`, `plugin.js:183`), and a merge of an entry without `messages` is not modelled.
- Metadata blocks. They are reduced to their sets of keys.
- Identity of `messages` lists. Every assignment to `messages` counts as a change, because each one the modelled code makes stores a new array. Assigning the same array again is not modelled.
- Filters.GetConflictingPlugins: requires the plugin list to hold distinct record objects, as the game's plugin list does. The source does not guard against a record appearing twice.
- Filters.MergeEntry: requires distinct record objects, for the same reason.
- The initial dashboard counts that the page computes when it loads plugins are not in the core. The model proves the drift between counters and records is preserved, not that it is zero.
- The object fields `filters.hiddenPluginNo` and `filters.hiddenMessageNo`. The code never writes them; only the bare globals change.
- Filters.FilterOne and Plugins.SpliceMatch are the bodies of the source's loops, written as methods of their own.
