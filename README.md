# MCP server configuration editor — a Dafny model of its configuration layer

mcp-config-gui is a desktop editor for the `mcpServers` block of an MCP
client's JSON configuration. This project models the part of it that
decides what the configuration and the store around it become:

- **Server entries** (`McpConfig`): the entry record and its optional keys.
  It also covers the classification of an entry as SSE, npx, uvx or node
  (`getServerType`) and the display-label tables.
- **Handlers**: the handlers that add, replace and delete entries
  (`ServerOperations`). The handlers for an entry's string lists `args`,
  `autoApprove` and `waitFor` (`ArrayOperations`). The handlers for its
  `env` map (`EnvOperations`). The type switch of the settings dialog
  (`ServerSettings`).
- **Shared store logic** (`StoreSpec`), used by both stores:
  - the configuration fingerprint, which is the sorted server names joined
    with `|`, or `empty-config`;
  - the path table and the path history;
  - the selection map;
  - merging imported servers;
  - filtering the saved servers by selection;
  - the save and import transitions.
- **The live store** (`FileOperations`): the class `FileState`, with one
  method per handler, each stated through a transition function on
  `StoreState`.
- **The alternative store** (`FileOperationsStore`): the class
  `FileOperationsState`, with its four behavioural differences from the
  live store.
- **The relationship view** (`RelationshipView`): dependency-edge
  inference as a loop proved against a specification function, and the
  three-column grid layout.

Things outside the model are parameters of the model:
- the file dialogs and the main process behind them are a reply value
  (`OpenReply`, `SaveReply`);
- the replace-or-merge confirmation is a `bool`;
- `JSON.parse` is an `Option<Document>`, where `None` means it threw.

A parsed document is its `mcpServers` member, if present, plus its other
top-level members in key order. Handlers that may return without calling
`setConfig` or `updateServerConfig` return an `Option`; `None` means the
callback is not called.

Three facts about the handlers shape the open and import transitions:
- opening a file never performs a snippet import; only the import box does;
- importing selects every imported name, including names already present;
- replacing on open resets the selection only when the file has `mcpServers`.

## Model

| member | source | states |
|---|---|---|
| McpConfig.DisplayName | src/types/mcp-config.ts:9-14 | every server type has one of the four labels SSE, npx, uvx, node |
| McpConfig.FromDisplayName | src/types/mcp-config.ts:16-21 | the reverse table is defined exactly on the four labels |
| McpConfig.GetServerType | src/types/mcp-config.ts:93-111 | a `url` key means SSE; otherwise a `command` key succeeds exactly for npx/uvx/node, with the type's value equal to the command, and fails with the unknown command otherwise; no key gives the invalid-configuration error |
| McpConfig.DisplayNameRoundTrip | src/types/mcp-config.ts:9-21 | the two label tables are inverse: a label maps back to a type exactly when it is that type's label |
| McpConfig.DisplayNameInjective | src/types/mcp-config.ts:9-14 | distinct types have distinct labels |
| McpConfig.CommandClassifiesAs | src/types/mcp-config.ts:97-105 | an entry without `url` whose command is a launcher type's value classifies as that type |
| McpConfig.ClassifyFailsOnlyWithoutKnownLauncher | src/types/mcp-config.ts:93-111 | classification throws exactly when there is no `url` and the command is missing or not one of the three launchers |
| ServerOperations.TrimStart | src/hooks/use-server-operations.ts:8 | `trimStart()` drops a whitespace-only prefix and leaves a string that is empty or starts with a non-whitespace character |
| ServerOperations.TrimEnd | src/hooks/use-server-operations.ts:8 | `trimEnd()` drops a whitespace-only suffix and leaves a string that is empty or ends with a non-whitespace character |
| ServerOperations.Trim | src/hooks/use-server-operations.ts:8 | `trim()` leaves a slice of the name that is empty or starts and ends with a non-whitespace character |
| ServerOperations.IsBlank | src/hooks/use-server-operations.ts:8 | a name is rejected exactly when every character is JavaScript whitespace |
| ServerOperations.AddNewServer | src/hooks/use-server-operations.ts:7-26 | nothing happens without a configuration or with a name that trims to empty; otherwise the untrimmed name maps to `{command: npx, args: [], autoApprove: [], env: {}}` and every other entry and top-level member is kept |
| ServerOperations.DeleteServer | src/hooks/use-server-operations.ts:28-43 | nothing happens without a configuration or its `mcpServers`; otherwise exactly the name is removed and the other entries are kept |
| ServerOperations.UpdateServerConfig | src/hooks/use-server-operations.ts:45-59 | same guard as delete; the name maps to the new entry, inserted when absent, and everything else is kept |
| ServerOperations.NewServerIsNpx | src/hooks/use-server-operations.ts:15-20 | a freshly added server classifies as npx |
| ServerOperations.DeleteAbsentIsIdentity | src/hooks/use-server-operations.ts:28-43 | deleting a missing name gives back an equal document |
| ServerOperations.DeleteIdempotent | src/hooks/use-server-operations.ts:28-43 | deleting twice is deleting once |
| ServerOperations.UpdateThenDelete | src/hooks/use-server-operations.ts:28-59 | replacing an entry and then deleting it is the same as deleting it |
| ArrayOperations.WithField | src/hooks/use-array-operations.ts:15-18 | writing `[fieldKey]` sets exactly that field |
| ArrayOperations.SpliceStart | src/hooks/use-array-operations.ts:28 | `splice`'s start: an index from 0 to the length is taken as is and a larger one becomes the length; a negative index counts back from the end, and one reaching before the start becomes 0 |
| ArrayOperations.Swap | src/hooks/use-array-operations.ts:57 | the destructuring swap exchanges the two positions and keeps every other item |
| ArrayOperations.ArrayItemChange | src/hooks/use-array-operations.ts:6-19 | the item at the index becomes the new value; the length, the other items and every other key stay |
| ArrayOperations.ArrayItemDelete | src/hooks/use-array-operations.ts:21-33 | an in-range index removes that one item; a negative index removes the item that many places from the end, or the first item when it reaches before the start; an index past the end changes nothing; a missing list becomes `[]`; other keys stay |
| ArrayOperations.ArrayItemAdd | src/hooks/use-array-operations.ts:35-45 | one empty string is appended after the existing items |
| ArrayOperations.ArrayItemMove | src/hooks/use-array-operations.ts:47-62 | no update when the target index leaves the list; otherwise the list is the one with the item and its neighbour swapped |
| ArrayOperations.SwapPermutes | src/hooks/use-array-operations.ts:57 | exchanging two positions keeps the multiset of items |
| ArrayOperations.MoveIsPermutation | src/hooks/use-array-operations.ts:47-62 | a move is a permutation of the list |
| ArrayOperations.MoveDownThenUp | src/hooks/use-array-operations.ts:47-62 | moving an item down and then back up restores the entry exactly |
| ArrayOperations.DeleteKeepsOrder | src/hooks/use-array-operations.ts:21-33 | deleting shortens the list by one and keeps the other items in order |
| EnvOperations.EnvChange | src/hooks/use-env-operations.ts:6-20 | no update without an `env` key; otherwise the key maps to the value and the other variables and keys stay |
| EnvOperations.EnvDelete | src/hooks/use-env-operations.ts:22-34 | no update without `env`; otherwise exactly the key is removed |
| EnvOperations.EnvAdd | src/hooks/use-env-operations.ts:36-48 | no update without `env`; otherwise `NEW_KEY` maps to "" (overwriting) and the rest stays |
| EnvOperations.EnvKeyChange | src/hooks/use-env-operations.ts:50-67 | no update without `env`; otherwise the old key is gone, the new key maps to the value, and the other variables stay |
| EnvOperations.KeyChangeToSameKey | src/hooks/use-env-operations.ts:50-67 | renaming a key to itself is setting its value |
| EnvOperations.DeleteAbsentKey | src/hooks/use-env-operations.ts:22-34 | deleting an absent variable leaves the entry equal |
| EnvOperations.KeyChangeIsDeleteThenSet | src/hooks/use-env-operations.ts:50-67 | renaming equals deleting the old key and then setting the new one |
| ServerSettings.SwitchType | src/components/dialogs/server-settings-dialog.tsx:59-75 | SSE gives `{url: "", autoApprove}`; a launcher type gives `{command, args: [], env: {}, autoApprove}`; `autoApprove` is kept, defaulting to `[]`, and every other key is dropped |
| ServerSettings.SwitchedEntryClassifies | src/components/dialogs/server-settings-dialog.tsx:59-75 | the rebuilt entry classifies as exactly the chosen type |
| ServerSettings.SwitchKeepsOnlyAutoApprove | src/components/dialogs/server-settings-dialog.tsx:64-71 | the result depends on the previous entry only through its `autoApprove` |
| StoreSpec.LessIrreflexive | src/hooks/use-file-operations.ts:18 | the name order used by `sort()` is irreflexive |
| StoreSpec.LessTransitive | src/hooks/use-file-operations.ts:18 | the name order is transitive |
| StoreSpec.LessTotal | src/hooks/use-file-operations.ts:18 | the name order is total and antisymmetric |
| StoreSpec.LeastExists | src/hooks/use-file-operations.ts:18 | every non-empty name set has a least name |
| StoreSpec.LeastUnique | src/hooks/use-file-operations.ts:18 | the least name is unique |
| StoreSpec.Less | src/hooks/use-file-operations.ts:18 | the order `sort()` uses between names: a proper prefix comes first |
| StoreSpec.SortedNamesSorted | src/hooks/use-file-operations.ts:18 | the sorted names list every server name once, in strictly increasing order |
| StoreSpec.SortedNamesUnique | src/hooks/use-file-operations.ts:18 | there is only one strictly sorted listing of a name set |
| StoreSpec.Join | src/hooks/use-file-operations.ts:18 | joining with the bar character: the first name starts the joined string and, when more follow, is followed by a bar character |
| StoreSpec.ConfigId | src/hooks/use-file-operations.ts:16-20 | a fingerprint is never empty, and no servers give `empty-config` |
| StoreSpec.ConfigIdOfSingleName | src/hooks/use-file-operations.ts:16-20 | a single non-empty server name is its own fingerprint |
| StoreSpec.ConfigIdOf | src/hooks/use-file-operations.ts:16-20 | a document's fingerprint is never empty, and a document without `mcpServers` gets `empty-config` |
| StoreSpec.SplitJoin | src/hooks/use-file-operations.ts:18 | `Split`, a cutter at every bar character defined only for this proof, inverts the join: for names without a bar character, splitting the joined string gives the names back |
| StoreSpec.JoinEmpty | src/hooks/use-file-operations.ts:18-19 | for non-empty names that contain no bar character and are not the sentinel, the join is empty only for no names and never equals `empty-config` |
| StoreSpec.ConfigIdInjective | src/hooks/use-file-operations.ts:16-20 | for such names, equal fingerprints mean equal name sets |
| StoreSpec.ConfigIdCollidesOnBar | src/hooks/use-file-operations.ts:16-20 | a name containing the bar character collides with the two names on either side of it |
| StoreSpec.ConfigIdCollidesOnSentinel | src/hooks/use-file-operations.ts:16-20 | no servers, one server named "", and one named `empty-config` share a fingerprint |
| StoreSpec.AddToHistory | src/hooks/use-file-operations.ts:122-129 | a non-empty new path is appended, anything else leaves the history; no repeats and no empty path is preserved |
| StoreSpec.RemoveFromHistory | src/hooks/use-file-operations.ts:132-135 | the path is gone, every other path of the history is still there, and the history does not grow |
| StoreSpec.RemoveDropsEveryCopy | src/hooks/use-file-operations.ts:133 | every copy of the path is dropped and every other path stays as often as it occurred |
| StoreSpec.RemoveKeepsOrder | src/hooks/use-file-operations.ts:132-135 | removal keeps the order of the rest, is idempotent and preserves no-repeats |
| StoreSpec.NoRemovalWhenAbsent | src/hooks/use-file-operations.ts:132-135 | removing an absent path changes nothing |
| StoreSpec.MigrateHistory | src/hooks/use-file-operations.ts:71-79 | the migrated history has no repeats and no empty path, and holds exactly the non-empty stored paths |
| StoreSpec.MigrationKeepsFirstOccurrenceOrder | src/hooks/use-file-operations.ts:74-75 | paths keep the order of their first occurrence |
| StoreSpec.RememberPath | src/hooks/use-file-operations.ts:112-119 | the document's fingerprint maps to the path; every other fingerprint keeps its path |
| StoreSpec.PathFor | src/hooks/use-file-operations.ts:144-147 | the remembered path for the fingerprint, or "" |
| StoreSpec.RecallByNames | src/hooks/use-file-operations.ts:112-147 | after remembering a path, any document with the same server names recalls it |
| StoreSpec.SavePath | src/hooks/use-file-operations.ts:271 | the custom path, else the current path, else the remembered one |
| StoreSpec.Toggle | src/hooks/use-file-operations.ts:149-151 | the name flips, an absent name counting as unselected; the others stay |
| StoreSpec.AllSelected | src/hooks/use-file-operations.ts:153-162 | a selection over exactly the given names, all set to the flag |
| StoreSpec.MarkSelected | src/hooks/use-file-operations.ts:309-314 | the given names are set to the flag and the other entries are kept |
| StoreSpec.MergeServers | src/hooks/use-file-operations.ts:300-306 | the union of names, imported entries winning on a clash |
| StoreSpec.MergeIdempotent | src/hooks/use-file-operations.ts:300-306 | merging the same servers twice is merging once |
| StoreSpec.Exported | src/hooks/use-file-operations.ts:258-268 | the saved servers are exactly those both selected and present, with unchanged entries |
| StoreSpec.ExportAllIsIdentity | src/hooks/use-file-operations.ts:258-268 | with every server selected, the whole server table is saved |
| StoreSpec.Snippet | src/hooks/use-file-operations.ts:318-319 | a snippet import inserts the first top-level member, or a key "undefined" when there is none |
| StoreSpec.MapOf | src/hooks/use-file-operations.ts:64-66 | the parsed path table has exactly the stored keys, and a key repeated in the stored text maps to the path of its last member |
| StoreSpec.ValuesOf | src/hooks/use-file-operations.ts:73-74 | `Object.values` of the parsed table: one path per key, keys in the order of their first member, each the path its key ends up with; the paths are exactly the table's values |
| StoreSpec.KeyOrder | src/hooks/use-file-operations.ts:73-74 | the parsed table's keys, without repeats, are exactly the keys of the table |
| StoreSpec.LoadSteps | src/hooks/use-file-operations.ts:37-79 | the start-up `try` block step by step: a `JSON.parse` throws exactly when one of the three parsed items is malformed, and ends the block; a malformed configuration leaves the start state; a stored configuration is loaded with all its servers selected, a stored path becomes current, a stored table is the parsed members and a stored history is taken as is; the error and import text are untouched |
| StoreSpec.MigratedHistoryFollowsTable | src/hooks/use-file-operations.ts:71-79 | without a stored history the history has no repeats and no empty path, and holds exactly the non-empty paths of the parsed table |
| StoreSpec.SaveRequestFor | src/hooks/use-file-operations.ts:250-276 | nothing is written without a configuration or when the filter throws (no `mcpServers`, some name selected); otherwise the selected servers go to the chosen path |
| StoreSpec.SaveFile | src/hooks/use-file-operations.ts:250-291 | nothing happens without a configuration; the save error is set exactly when nothing can be written or the bridge throws, and cleared exactly when the bridge returns; the import text stays |
| StoreSpec.ImportConfig | src/hooks/use-file-operations.ts:293-352 | the path table and history stay; unparseable text sets the import error and keeps the text; parsed text clears the error and the text and leaves a configuration with `mcpServers` |
| StoreSpec.ImportedConfig | src/hooks/use-file-operations.ts:298-327 | a full document is merged into the current servers (or `{}`) and a snippet adds its first member; the current configuration's other top-level members are kept |
| StoreSpec.ImportedSelection | src/hooks/use-file-operations.ts:309-330 | the imported names, or the snippet's name, become selected and the others stay |
| StoreSpec.CreateNewConfig | src/hooks/use-file-operations.ts:173-181 | an empty configuration, no path, no selection; the path table, the history, the error and the import text stay |
| StoreSpec.ImportMalformedKeepsState | src/hooks/use-file-operations.ts:293-351 | an import that cannot be parsed sets the error and nothing else |
| StoreSpec.ImportFullDocument | src/hooks/use-file-operations.ts:298-315 | a full import merges, keeps the other top-level members, selects the imported names, keeps other selections, clears the text and the error |
| StoreSpec.ImportSnippet | src/hooks/use-file-operations.ts:317-331 | a snippet import inserts and selects only its first member and keeps the other top-level members |
| StoreSpec.ImportPathFollowsMapping | src/hooks/use-file-operations.ts:333-340 | the current path changes only to the merged configuration's remembered path |
| StoreSpec.ImportIdempotent | src/hooks/use-file-operations.ts:298-315 | importing the same full document twice gives the same configuration and selection as once |
| StoreSpec.SaveWritesSelection | src/hooks/use-file-operations.ts:258-268 | a name is saved exactly when it is selected and present, with its entry |
| StoreSpec.SaveRecordsReturnedPath | src/hooks/use-file-operations.ts:278-285 | a returned path becomes current, is remembered for the saved names and is added to the history |
| StoreSpec.SaveKeepsConfig | src/hooks/use-file-operations.ts:250-291 | saving never changes the configuration or the selection |
| StoreSpec.MarkEach | src/hooks/use-file-operations.ts:309-314 | the `forEach` loop yields the selection with the names marked |
| StoreSpec.MarkOneMore | src/hooks/use-file-operations.ts:311-313 | marking one more name is one map update |
| StoreSpec.FilterSelected | src/hooks/use-file-operations.ts:262-268 | the filter loop throws exactly when `mcpServers` is missing and some name is selected, and otherwise yields the exported servers |
| FileOperations.OpenReplace | src/hooks/use-file-operations.ts:198-209 | replacing makes the parsed document the configuration and, when it has servers, selects exactly its names |
| FileOperations.OpenMerge | src/hooks/use-file-operations.ts:210-229 | merging keeps other top-level members, unions the servers with the imported ones winning, selects the imported names and keeps the other selections |
| FileOperations.OpenRecordsPath | src/hooks/use-file-operations.ts:234-241 | the opened path becomes current, is added to the history and is remembered for the parsed document's names |
| FileOperations.OpenFailureKeepsState | src/hooks/use-file-operations.ts:189-247 | a cancelled open only clears the error; a failed or unparseable one only sets it |
| FileOperations.SaveThenOpenRoundTrip | src/hooks/use-file-operations.ts:198-276 | opening a saved file with replace loads exactly the selected servers, all selected |
| FileOperations.SelectAllExact | src/hooks/use-file-operations.ts:153-162 | after select-all the selection's keys are exactly the current names, all set to the flag |
| FileOperations.TransitionsKeepHistoryValid | src/hooks/use-file-operations.ts:122-129 | opening and saving keep the history free of repeats and empty paths |
| FileOperations.LoadMigratesHistory | src/hooks/use-file-operations.ts:36-85 | start-up without a history migrates the stored paths; no stored configuration gives `{mcpServers: {}}`; a stored one starts fully selected |
| FileOperations.Loaded | src/hooks/use-file-operations.ts:36-85 | after start-up there is always a configuration, the error and import text are untouched, and a `JSON.parse` that throws puts `{mcpServers: {}}` back |
| FileOperations.LoadFailureResetsOnlyConfig | src/hooks/use-file-operations.ts:43-84 | a path table or history that fails to parse after a stored configuration was read resets only the configuration: the stored path and the dropped configuration's selection stay |
| FileOperations.MigrationSeesOnlyLastValue | src/hooks/use-file-operations.ts:64-76 | a stored table that repeats a key migrates only the path of its last member |
| FileOperations.SelectAll | src/hooks/use-file-operations.ts:153-162 | select-all changes only the selection |
| FileOperations.Cleared | src/hooks/use-file-operations.ts:165-171 | the configuration becomes `{mcpServers: {}}`, whose fingerprint is `empty-config`; the path table, history, error and import text stay |
| FileOperations.OpenFile | src/hooks/use-file-operations.ts:189-248 | the import text stays; the open error is set exactly when the bridge throws or the content does not parse, and cleared otherwise; any outcome but a parsed file changes nothing but the error |
| FileOperations.LoadDocument | src/hooks/use-file-operations.ts:198-229 | replacing yields the parsed document; the opened servers end up present with their entries, and selected when the file has `mcpServers`; merging keeps the other top-level members, the other servers and the other selection entries |
| FileOperations.OpenedLoads | src/hooks/use-file-operations.ts:194-241 | a parsed file gives the configuration and selection `LoadDocument` computes, no error, and the opened path current, remembered for the file's names and added to the history |
| FileOperations.FileState.Load | src/hooks/use-file-operations.ts:36-85 | the fields become the start-up state `Loaded`: the steps of the `try` block, then the `catch` that puts `{mcpServers: {}}` back after a parse error |
| FileOperations.FileState.SetConfig | src/hooks/use-file-operations.ts:89-94 | the configuration is replaced |
| FileOperations.FileState.SetImportConfig | src/hooks/use-file-operations.ts:107-109 | the import text is replaced |
| FileOperations.FileState.SelectSavePath | src/hooks/use-file-operations.ts:184-187 | the current path is replaced |
| FileOperations.FileState.UpdatePathMapping | src/hooks/use-file-operations.ts:112-119 | the path table becomes the one with the path remembered |
| FileOperations.FileState.UpdatePathHistory | src/hooks/use-file-operations.ts:122-129 | the history becomes the one with the path added |
| FileOperations.FileState.RemovePathFromHistory | src/hooks/use-file-operations.ts:132-135 | the history loses the path |
| FileOperations.FileState.ClearPathHistory | src/hooks/use-file-operations.ts:138-141 | the history becomes empty |
| FileOperations.FileState.GetPathForConfig | src/hooks/use-file-operations.ts:144-147 | returns the remembered path for the document, or "" |
| FileOperations.FileState.ToggleServerSelection | src/hooks/use-file-operations.ts:149-151 | the selection becomes the toggled one |
| FileOperations.FileState.SelectAllServers | src/hooks/use-file-operations.ts:153-162 | nothing without a configuration or its servers; otherwise the selection becomes the current names, all set to the flag |
| FileOperations.FileState.ClearStoredConfig | src/hooks/use-file-operations.ts:165-171 | an empty configuration, no path, no selection |
| FileOperations.FileState.CreateNewConfig | src/hooks/use-file-operations.ts:173-181 | the state becomes the new-configuration state |
| FileOperations.FileState.HandleOpenFile | src/hooks/use-file-operations.ts:189-248 | the new state is the open transition for the reply and the replace answer |
| FileOperations.FileState.LoadOpened | src/hooks/use-file-operations.ts:198-241 | the fields a parsed file changes become those of the opened-file state |
| FileOperations.FileState.HandleSaveFile | src/hooks/use-file-operations.ts:250-291 | hands the bridge exactly the save request, and the new state is the save transition for the reply |
| FileOperations.FileState.HandleImportConfig | src/hooks/use-file-operations.ts:293-352 | the new state is the import transition for the parsed text |
| FileOperationsStore.OpenReplaceAgrees | src/store/file-operations-store.ts:154-165 | with a configuration present, opening with replace behaves as in the live store |
| FileOperationsStore.OpenMergeAgreesWithServers | src/store/file-operations-store.ts:166-185 | merging a document that has `mcpServers` behaves as in the live store |
| FileOperationsStore.OpenMergeWithoutServers | src/store/file-operations-store.ts:166-191 | merging a document without `mcpServers` keeps the configuration and the selection but still records the path |
| FileOperationsStore.MergeWithoutServersDiffers | src/store/file-operations-store.ts:171-185 | a configuration without `mcpServers` merged with such a document ends differently in the two stores |
| FileOperationsStore.SelectAllKeepsOthers | src/store/file-operations-store.ts:317-323 | select-all sets the current names and keeps the entries of names that are gone |
| FileOperationsStore.ClearKeepsRecords | src/store/file-operations-store.ts:326-334 | clearing leaves no configuration and no path, and keeps the selection, the path table and the history |
| FileOperationsStore.ClearedSaveIsNoOp | src/store/file-operations-store.ts:326-334 | after a clear, saving does nothing and opening always replaces |
| FileOperationsStore.TransitionsKeepHistoryValid | src/store/file-operations-store.ts:117-124 | opening and saving keep the history free of repeats and empty paths |
| FileOperationsStore.Loaded | src/store/file-operations-store.ts:45-89 | after start-up there is a configuration exactly when a stored one parsed; the error and import text are untouched |
| FileOperationsStore.LoadFailureKeepsPartialState | src/store/file-operations-store.ts:52-88 | a path table that fails to parse keeps the stored configuration, its selection and the stored path, with an empty table and history |
| FileOperationsStore.LoadDiffersOnlyInConfig | src/store/file-operations-store.ts:45-89 | the two stores load the same state except the configuration, which the live store sets to `{mcpServers: {}}` when this store has none or when the table or history failed to parse |
| FileOperationsStore.SelectAll | src/store/file-operations-store.ts:317-323 | select-all changes only the selection |
| FileOperationsStore.Cleared | src/store/file-operations-store.ts:326-334 | no configuration and no path afterwards; the error and import text stay |
| FileOperationsStore.OpenFile | src/store/file-operations-store.ts:145-202 | the import text stays; the open error is set exactly when the bridge throws or the content does not parse, and cleared otherwise; any outcome but a parsed file changes nothing but the error |
| FileOperationsStore.LoadDocument | src/store/file-operations-store.ts:154-185 | there is always a configuration afterwards; replacing yields the parsed document; the opened servers end up present with their entries, and selected when the file has `mcpServers`; merging keeps the other top-level members, the other servers and the other selection entries |
| FileOperationsStore.OpenedLoads | src/store/file-operations-store.ts:150-191 | a parsed file gives the configuration and selection `LoadDocument` computes, no error, and the opened path current, remembered for the file's names and added to the history |
| FileOperationsStore.FileOperationsState.Load | src/store/file-operations-store.ts:33-89 | the fields become this store's start-up state `Loaded`: the steps of the `try` block, kept as far as they got when a parse throws |
| FileOperationsStore.FileOperationsState.SetConfig | src/store/file-operations-store.ts:94-99 | the configuration is replaced |
| FileOperationsStore.FileOperationsState.SetImportConfig | src/store/file-operations-store.ts:350-352 | the import text is replaced |
| FileOperationsStore.FileOperationsState.SelectSavePath | src/store/file-operations-store.ts:344-347 | the current path is replaced |
| FileOperationsStore.FileOperationsState.UpdatePathMapping | src/store/file-operations-store.ts:110-114 | the path table becomes the one with the path remembered |
| FileOperationsStore.FileOperationsState.UpdatePathHistory | src/store/file-operations-store.ts:117-124 | the history becomes the one with the path added |
| FileOperationsStore.FileOperationsState.RemovePathFromHistory | src/store/file-operations-store.ts:127-130 | the history loses the path |
| FileOperationsStore.FileOperationsState.ClearPathHistory | src/store/file-operations-store.ts:133-136 | the history becomes empty |
| FileOperationsStore.FileOperationsState.GetPathForConfig | src/store/file-operations-store.ts:139-142 | returns the remembered path for the document, or "" |
| FileOperationsStore.FileOperationsState.ToggleServerSelection | src/store/file-operations-store.ts:312-314 | the selection becomes the toggled one |
| FileOperationsStore.FileOperationsState.SelectAllServers | src/store/file-operations-store.ts:317-323 | nothing without a configuration or its servers; otherwise each current name is set to the flag, other entries kept |
| FileOperationsStore.FileOperationsState.ClearStoredConfig | src/store/file-operations-store.ts:326-334 | the state becomes the cleared state of this store |
| FileOperationsStore.FileOperationsState.CreateNewConfig | src/store/file-operations-store.ts:337-341 | the state becomes the new-configuration state |
| FileOperationsStore.FileOperationsState.HandleOpenFile | src/store/file-operations-store.ts:145-202 | the new state is this store's open transition |
| FileOperationsStore.FileOperationsState.LoadOpened | src/store/file-operations-store.ts:154-191 | the fields a parsed file changes become those of the opened-file state |
| FileOperationsStore.FileOperationsState.HandleSaveFile | src/store/file-operations-store.ts:205-244 | hands the bridge exactly the save request, and the new state is the shared save transition |
| FileOperationsStore.FileOperationsState.HandleImportConfig | src/store/file-operations-store.ts:247-309 | the new state is the shared import transition |
| RelationshipView.Edge.Id | src/components/server-relationship-view.tsx:114-136 | an id is `source-target` for a wait edge and `source-target-http` for an HTTP edge: it starts with `source-`, the target follows, its length is that of the template, and HTTP ids end in `-http` |
| RelationshipView.IdsCollide | src/components/server-relationship-view.tsx:115-132 | ids are not unique: the wait edge to a server named `b-http` has the id of the HTTP edge to `b` |
| RelationshipView.HttpUrl | src/components/server-relationship-view.tsx:126-127 | a URL exists exactly when `readyWhen`, `http` and `url` are all present |
| RelationshipView.Known | src/components/server-relationship-view.tsx:112-113 | the known `waitFor` items are exactly those that are server names, each kept as often as it occurs in `waitFor` |
| RelationshipView.Contains | src/components/server-relationship-view.tsx:130 | `url.includes(t)`: a prefix of the URL occurs in it, and only a name no longer than the URL can occur |
| RelationshipView.WaitEdges | src/components/server-relationship-view.tsx:111-123 | at most one edge per `waitFor` item, each a wait edge from the source to a listed item that is a server name |
| RelationshipView.HttpEdges | src/components/server-relationship-view.tsx:129-138 | at most one edge per server name, each an HTTP edge from the source to another server |
| RelationshipView.EdgesUpTo | src/components/server-relationship-view.tsx:107-140 | every edge of the first k sources joins two servers |
| RelationshipView.InferEdges | src/components/server-relationship-view.tsx:100-143 | every inferred edge joins two servers |
| RelationshipView.PushWaitEdges | src/components/server-relationship-view.tsx:111-123 | the inner loop appends the wait edges of the source's `waitFor` |
| RelationshipView.PushHttpEdges | src/components/server-relationship-view.tsx:126-139 | the inner loop appends the HTTP edges of the source's URL |
| RelationshipView.AnalyzeDependencies | src/components/server-relationship-view.tsx:100-143 | the nested loops produce exactly the inferred edge list |
| RelationshipView.WaitEdgesFollowKnownItems | src/components/server-relationship-view.tsx:111-123 | one wait edge per known `waitFor` item, in the items' order, with repeats kept |
| RelationshipView.WaitEdgesMembership | src/components/server-relationship-view.tsx:111-123 | a wait edge from the source is emitted exactly for a `waitFor` item that is a server name |
| RelationshipView.HttpEdgesMembership | src/components/server-relationship-view.tsx:129-138 | an HTTP edge from the source is emitted exactly for another server whose name occurs in the URL |
| RelationshipView.EdgesFromMembership | src/components/server-relationship-view.tsx:107-140 | one source's edges are exactly its wait and HTTP edges |
| RelationshipView.EdgesUpToSound | src/components/server-relationship-view.tsx:107-140 | every edge after k sources comes from one of them and meets that source's wait or HTTP condition |
| RelationshipView.EdgesUpToComplete | src/components/server-relationship-view.tsx:107-140 | every edge meeting the condition of one of the first k sources is among their edges |
| RelationshipView.InferredEdgesExactly | src/components/server-relationship-view.tsx:100-143 | an edge is inferred exactly when it meets the wait or HTTP condition between two servers |
| RelationshipView.NoHttpSelfEdges | src/components/server-relationship-view.tsx:130 | there is never an HTTP edge from a server to itself |
| RelationshipView.NoHttpEdgesWithoutUrl | src/components/server-relationship-view.tsx:126-127 | a server without `readyWhen.http.url` is the source of no HTTP edge |
| RelationshipView.Position | src/components/server-relationship-view.tsx:73-76 | cards sit in three columns at x 0, 400 or 800, with rows 300 apart |
| RelationshipView.PositionInjective | src/components/server-relationship-view.tsx:73-76 | distinct indices get distinct positions |
| RelationshipView.InitialNodes | src/components/server-relationship-view.tsx:56-77 | one card per server name, in order, each on its index's slot |
| RelationshipView.Relaid | src/components/server-relationship-view.tsx:87-97 | reset keeps the cards and moves each to its index's slot |
| RelationshipView.ResetRestoresInitialLayout | src/components/server-relationship-view.tsx:87-97 | resetting the initial layout reproduces it, and resetting is idempotent |
| RelationshipView.View.constructor | src/components/server-relationship-view.tsx:79-80 | the view starts with the initial cards and no edges |
| RelationshipView.View.ResetLayout | src/components/server-relationship-view.tsx:87-97 | the cards become the reset cards |
| RelationshipView.View.Analyze | src/components/server-relationship-view.tsx:100-143 | the edges are replaced by the inferred edges, not extended |

## Left out

- Local storage is not modelled: reading it is the `StoredState` parameter of `Load`, and every write to it is dropped.
- Top-level JSON that is not an object (`null`, numbers, arrays) is not modelled. In the source it throws or behaves in ways the typed store does not intend.
- Keys with values of the wrong type are not modelled. Unknown extra keys of an entry are not modelled either.
- The `loading` flag, the `async` interleaving of handlers and the `setCurrentPath` and `setError` setters are left out.
- Error messages are an enum (`StoreError`); their translated text is left out.
- StoreSpec.Less: this order is Dafny's character order. `sort()` compares UTF-16 code units, so names with characters outside the Basic Multilingual Plane may sort differently.
- StoreSpec.Snippet: importing `{}` stores `undefined` under the key "undefined". The model stores an entry with no keys, the closest value an entry can hold.
- Object key order is modelled only for the stored path table, and there as the order of first occurrence. The order of `env` keys and of server names is not tracked.
- StoreSpec.ValuesOf: JavaScript lists integer-like keys first, in numeric order, before the other keys. The model keeps first-occurrence order for every key, so a table with integer-like fingerprints may migrate its paths in another order.
- StoreSpec.Toggle: a name that is a member every JavaScript object inherits, such as "constructor" or "toString", reads as truthy before it is stored. The model reads every absent name as false, so toggling such a name gives `true` where the source gives `false`. FileOperations.FileState.ToggleServerSelection and FileOperationsStore.FileOperationsState.ToggleServerSelection inherit this.
- StoreSpec.Exported: the save filter tests `config.mcpServers[name]`, which for a selected name such as "constructor" finds a member every object inherits even after that server was deleted, and copies it into the saved servers. The model saves only names present in the server table. StoreSpec.SaveRequestFor, StoreSpec.FilterSelected, FileOperations.FileState.HandleSaveFile and FileOperationsStore.FileOperationsState.HandleSaveFile inherit this.
- StoreSpec.PathFor: a fingerprint such as "constructor" or "toString" finds an inherited function in the source, which is then returned as the path. The model returns "" for any fingerprint not in the table. FileOperations.FileState.GetPathForConfig and FileOperationsStore.FileOperationsState.GetPathForConfig inherit this.
- A stored history that parses to something other than an array of strings, and a stored configuration or path table that parses to something other than an object, are not modelled.
- ArrayOperations.ArrayItemChange: requires an in-range index. The editor only passes such indices. In the source, an index equal to the length appends an item, a larger one leaves holes in the array, and a negative one adds a non-index property.
- ArrayOperations.ArrayItemMove: requires an in-range index, for the same reason.
- RelationshipView.AnalyzeDependencies: requires every listed name to have an entry. The component's props do not enforce this: `serverNames` and `serverConfigs` are passed separately, and a name without an entry makes the source throw. No caller of the component is part of this model.
- The initial cards are computed once, so they do not follow later changes to the server list. The model states the initial layout and the reset only.
- Card rendering, dragging, manual connections and the graph library's own state are left out.
- The main process is not part of this model. Its save handler's return value, the file dialogs and window controls are reply parameters or omitted.
