/**
 * The alternative valtio store (src/store/file-operations-store.ts): the
 * same fields and handlers as the live store, with four differences in
 * behaviour. Start-up leaves the configuration absent when storage holds
 * none. Opening in merge mode changes nothing when the parsed document
 * has no `mcpServers`. `selectAllServers` sets only the current names and
 * keeps the other selection entries. `clearStoredConfig` drops the
 * configuration and the path but keeps the selection. Saving, importing
 * and `createNewConfig` are the shared transitions.
 */
module FileOperationsStore {
  import opened Wrappers
  import opened McpConfig
  import opened StoreSpec
  import FileOperations

  /** The proxy's initial state: no configuration. */
  const Initial: StoreState := StoreState(None, "", map[], [], None, "", map[])

  /**
   * `initializeState`: the load steps from the initial state; its `catch`
   * only logs, so a `JSON.parse` that throws leaves the fields set so far.
   */
  function Loaded(saved: StoredState): (r: StoreState)
    ensures r.config.Some? <==> saved.config.Parsed?
    ensures r.error.None? && r.importText == ""
  {
    LoadSteps(Initial, saved).0
  }

  /**
   * A path table that fails to parse after a stored configuration was read:
   * the configuration, its selection and the stored path stay, and the
   * path table and history stay empty.
   */
  lemma LoadFailureKeepsPartialState(saved: StoredState)
    requires saved.config.Parsed? && saved.mappings.Malformed?
    ensures var r := Loaded(saved);
      && r.config == Some(saved.config.value) && r.currentPath == saved.path
      && r.pathMappings == map[] && r.pathHistory == []
      && (saved.config.value.mcpServers.Some? ==>
            r.selectedServers == AllSelected(saved.config.value.mcpServers.value.Keys, true))
  {
  }

  /** The two stores load the same state except for the configuration, which the live store always has. */
  lemma LoadDiffersOnlyInConfig(saved: StoredState)
    ensures Loaded(saved) == FileOperations.Loaded(saved).(config := Loaded(saved).config)
    ensures FileOperations.Loaded(saved).config ==
      if Loaded(saved).config.None? || saved.mappings.Malformed? || saved.history.Malformed?
      then Some(EmptyDocument) else Loaded(saved).config
  {
  }

  /** `selectAllServers`: every current name is set to `b`; other selection entries stay. */
  function SelectAll(s: StoreState, b: bool): (r: StoreState)
    ensures r == s.(selectedServers := r.selectedServers)
  {
    if s.config.None? || s.config.value.mcpServers.None? then s
    else s.(selectedServers := MarkSelected(s.selectedServers, s.config.value.mcpServers.value.Keys, b))
  }

  /** `clearStoredConfig`: no configuration and no path; selection, path table and history stay. */
  function Cleared(s: StoreState): (r: StoreState)
    ensures r.config.None? && r.currentPath == ""
    ensures r.error == s.error && r.importText == s.importText
  {
    s.(config := None, currentPath := "")
  }

  /** `handleOpenFile`, with this store's merge branch. */
  function OpenFile(s: StoreState, reply: OpenReply, replace: bool): (r: StoreState)
    ensures r.importText == s.importText
    ensures r.error == Some(OpenFailed) <==> reply.OpenThrew? || (reply.Opened? && reply.parsed.None?)
    ensures r.error.None? <==> !(r.error == Some(OpenFailed))
    ensures !(reply.Opened? && reply.parsed.Some?) ==> r == s.(error := r.error)
  {
    match reply
    case OpenCancelled => s.(error := None)
    case OpenThrew => s.(error := Some(OpenFailed))
    case Opened(path, parsed) =>
      if parsed.None? then s.(error := Some(OpenFailed))
      else
        var d := parsed.value;
        var loaded := LoadDocument(s.config, s.selectedServers, d, replace);
        s.(config := loaded.0, selectedServers := loaded.1, error := None,
           currentPath := path,
           pathMappings := RememberPath(s.pathMappings, d, path),
           pathHistory := AddToHistory(s.pathHistory, path))
  }

  /**
   * The configuration and selection after opening `d`: replaced as in the
   * live store; merged only when `d` has `mcpServers`, left alone otherwise.
   */
  function LoadDocument(config: Option<Document>, sel: map<string, bool>, d: Document, replace: bool): (r: (Option<Document>, map<string, bool>))
    ensures r.0.Some?
    ensures config.None? || replace ==> r.0 == Some(d)
    ensures forall n :: n in ServersOf(d) ==> n in ServersOf(r.0.value) && ServersOf(r.0.value)[n] == ServersOf(d)[n]
    ensures d.mcpServers.Some? ==> forall n :: n in d.mcpServers.value ==> n in r.1 && r.1[n]
    ensures config.Some? && !replace ==> r.0.value.others == config.value.others
    ensures config.Some? && !replace ==> forall n :: n in ServersOf(config.value) && n !in ServersOf(d) ==>
      n in ServersOf(r.0.value) && ServersOf(r.0.value)[n] == ServersOf(config.value)[n]
    ensures config.Some? && !replace ==> forall n :: n in sel && n !in ServersOf(d) ==> n in r.1 && r.1[n] == sel[n]
  {
    if config.None? || replace then
      (Some(d), if d.mcpServers.Some? then AllSelected(d.mcpServers.value.Keys, true) else sel)
    else if d.mcpServers.Some? then
      (Some(config.value.(mcpServers := Some(MergeServers(ServersOf(config.value), d.mcpServers.value)))),
       MarkSelected(sel, d.mcpServers.value.Keys, true))
    else
      (config, sel)
  }

  /** A parsed document reaches the state through `LoadDocument`. */
  lemma OpenedLoads(s: StoreState, path: string, d: Document, replace: bool)
    ensures var loaded := LoadDocument(s.config, s.selectedServers, d, replace);
      OpenFile(s, Opened(path, Some(d)), replace) ==
        s.(config := loaded.0, selectedServers := loaded.1, error := None, currentPath := path,
           pathMappings := RememberPath(s.pathMappings, d, path), pathHistory := AddToHistory(s.pathHistory, path))
  {
  }

  /** Opening with replace behaves exactly as in the live store. */
  lemma OpenReplaceAgrees(s: StoreState, reply: OpenReply)
    ensures OpenFile(s, reply, true) == FileOperations.OpenFile(s, reply, true)
  {
  }

  /** Merging a document with servers behaves exactly as in the live store. */
  lemma OpenMergeAgreesWithServers(s: StoreState, path: string, d: Document)
    requires s.config.Some? && d.mcpServers.Some?
    ensures OpenFile(s, Opened(path, Some(d)), false) == FileOperations.OpenFile(s, Opened(path, Some(d)), false)
  {
  }

  /** Merging a document without servers keeps the configuration and the selection, but still records the path. */
  lemma OpenMergeWithoutServers(s: StoreState, path: string, d: Document)
    requires s.config.Some? && d.mcpServers.None?
    ensures var r := OpenFile(s, Opened(path, Some(d)), false);
      && r.config == s.config && r.selectedServers == s.selectedServers
      && r.currentPath == path && r.pathHistory == AddToHistory(s.pathHistory, path)
  {
  }

  /**
   * The two stores disagree when a configuration without `mcpServers` is
   * merged with a document without it: the live store adds an empty
   * server table, this one does not.
   */
  lemma MergeWithoutServersDiffers()
    ensures var s := StoreState(Some(Document(None, [])), "", map[], [], None, "", map[]);
      var reply := Opened("a.json", Some(Document(None, [])));
      OpenFile(s, reply, false).config != FileOperations.OpenFile(s, reply, false).config
  {
    var s := StoreState(Some(Document(None, [])), "", map[], [], None, "", map[]);
    var reply := Opened("a.json", Some(Document(None, [])));
    assert FileOperations.OpenFile(s, reply, false).config.value.mcpServers.Some?;
  }

  /** `selectAllServers` sets every current name to `b` and keeps the entries of names that are gone. */
  lemma SelectAllKeepsOthers(s: StoreState, b: bool)
    requires s.config.Some? && s.config.value.mcpServers.Some?
    ensures var r := SelectAll(s, b).selectedServers;
      && (forall n :: n in s.config.value.mcpServers.value ==> n in r && r[n] == b)
      && (forall n :: n in s.selectedServers && n !in s.config.value.mcpServers.value ==> n in r && r[n] == s.selectedServers[n])
      && r.Keys == s.selectedServers.Keys + s.config.value.mcpServers.value.Keys
  {
  }

  /** Clearing keeps the selection, the path table and the history. */
  lemma ClearKeepsRecords(s: StoreState)
    ensures Cleared(s).config.None? && Cleared(s).currentPath == ""
    ensures Cleared(s).selectedServers == s.selectedServers
    ensures Cleared(s).pathMappings == s.pathMappings && Cleared(s).pathHistory == s.pathHistory
  {
  }

  /** After a clear, saving does nothing and opening always replaces. */
  lemma ClearedSaveIsNoOp(s: StoreState, customPath: string, reply: SaveReply, path: string, d: Document, replace: bool)
    ensures SaveRequestFor(Cleared(s), customPath).None?
    ensures SaveFile(Cleared(s), customPath, reply) == Cleared(s)
    ensures OpenFile(Cleared(s), Opened(path, Some(d)), replace).config == Some(d)
  {
  }

  /** Open and save keep the history free of repeats and of the empty path. */
  lemma TransitionsKeepHistoryValid(s: StoreState, reply: OpenReply, replace: bool, customPath: string, saveReply: SaveReply)
    requires HistoryValid(s.pathHistory)
    ensures HistoryValid(OpenFile(s, reply, replace).pathHistory)
    ensures HistoryValid(SaveFile(s, customPath, saveReply).pathHistory)
  {
  }

  /** The state the store holds, with the handlers of `actions`. */
  class FileOperationsState {
    var config: Option<Document>
    var currentPath: string
    var pathMappings: map<string, string>
    var pathHistory: seq<string>
    var error: Option<StoreError>
    var importText: string
    var selectedServers: map<string, bool>

    /** The store's fields as one value. */
    function State(): StoreState
      reads this
    {
      StoreState(config, currentPath, pathMappings, pathHistory, error, importText, selectedServers)
    }

    /** The initial proxy state followed by `initializeState`. */
    constructor Load(saved: StoredState)
      ensures State() == Loaded(saved)
    {
      config := None;
      currentPath := "";
      pathMappings := map[];
      pathHistory := [];
      error := None;
      importText := "";
      selectedServers := map[];
      new;
      var threw := false;
      match saved.config {
        case Malformed =>
          threw := true;
        case Parsed(d) =>
          config := Some(d);
          if d.mcpServers.Some? {
            selectedServers := AllSelected(d.mcpServers.value.Keys, true);
          }
        case Absent =>
      }
      if !threw {
        if saved.path != "" {
          currentPath := saved.path;
        }
        match saved.mappings {
          case Malformed =>
            threw := true;
          case Parsed(members) =>
            pathMappings := MapOf(members);
          case Absent =>
        }
        if !threw {
          match saved.history {
            case Malformed =>
            case Parsed(h) =>
              pathHistory := h;
            case Absent =>
              if saved.mappings.Parsed? {
                pathHistory := MigrateHistory(ValuesOf(saved.mappings.value));
              }
          }
        }
      }
    }

    /** `setConfig`. */
    method SetConfig(c: Option<Document>)
      modifies this`config
      ensures config == c
    {
      config := c;
    }

    /** `setImportConfig`. */
    method SetImportConfig(text: string)
      modifies this`importText
      ensures importText == text
    {
      importText := text;
    }

    /** `selectSavePath`. */
    method SelectSavePath(path: string)
      modifies this`currentPath
      ensures currentPath == path
    {
      currentPath := path;
    }

    /** `updatePathMapping`. */
    method UpdatePathMapping(d: Document, path: string)
      modifies this`pathMappings
      ensures pathMappings == RememberPath(old(pathMappings), d, path)
    {
      pathMappings := pathMappings[ConfigIdOf(d) := path];
    }

    /** `updatePathHistory`: the path is pushed onto the list in place when it is new and non-empty. */
    method UpdatePathHistory(path: string)
      modifies this`pathHistory
      ensures pathHistory == AddToHistory(old(pathHistory), path)
    {
      if path != "" && path !in pathHistory {
        pathHistory := pathHistory + [path];
      }
    }

    /** `removePathFromHistory`. */
    method RemovePathFromHistory(path: string)
      modifies this`pathHistory
      ensures pathHistory == RemoveFromHistory(old(pathHistory), path)
    {
      pathHistory := RemoveFromHistory(pathHistory, path);
    }

    /** `clearPathHistory`. */
    method ClearPathHistory()
      modifies this`pathHistory
      ensures pathHistory == []
    {
      pathHistory := [];
    }

    /** `getPathForConfig`. */
    method GetPathForConfig(d: Document) returns (path: string)
      ensures path == PathFor(pathMappings, d)
    {
      var id := ConfigIdOf(d);
      path := if id in pathMappings then pathMappings[id] else "";
    }

    /** `toggleServerSelection`. */
    method ToggleServerSelection(name: string)
      modifies this`selectedServers
      ensures selectedServers == Toggle(old(selectedServers), name)
    {
      selectedServers := selectedServers[name := !(name in selectedServers && selectedServers[name])];
    }

    /** `selectAllServers`: one assignment per current name. */
    method SelectAllServers(b: bool)
      modifies this`selectedServers
      ensures State() == SelectAll(old(State()), b)
    {
      if config.None? || config.value.mcpServers.None? {
        return;
      }
      selectedServers := MarkEach(selectedServers, config.value.mcpServers.value.Keys, b);
    }

    /** `clearStoredConfig`. */
    method ClearStoredConfig()
      modifies this`config, this`currentPath
      ensures State() == Cleared(old(State()))
    {
      config := None;
      currentPath := "";
    }

    /** `createNewConfig`. */
    method CreateNewConfig()
      modifies this`config, this`currentPath, this`selectedServers
      ensures State() == StoreSpec.CreateNewConfig(old(State()))
    {
      config := Some(EmptyDocument);
      currentPath := "";
      selectedServers := map[];
    }

    /** `handleOpenFile`, given the bridge's reply and the answer to the replace question. */
    method HandleOpenFile(reply: OpenReply, replace: bool)
      modifies this`config, this`selectedServers, this`currentPath, this`pathMappings, this`pathHistory, this`error
      ensures State() == OpenFile(old(State()), reply, replace)
    {
      error := None;
      match reply
      case OpenCancelled =>
      case OpenThrew =>
        error := Some(OpenFailed);
      case Opened(path, parsed) =>
        if parsed.None? {
          error := Some(OpenFailed);
        } else {
          OpenedLoads(State(), path, parsed.value, replace);
          LoadOpened(parsed.value, path, replace);
        }
    }

    /** What `handleOpenFile` does with a parsed document: load it, then record its path. */
    method LoadOpened(d: Document, path: string, replace: bool)
      modifies this`config, this`selectedServers, this`currentPath, this`pathMappings, this`pathHistory
      ensures var loaded := LoadDocument(old(config), old(selectedServers), d, replace);
        config == loaded.0 && selectedServers == loaded.1
      ensures currentPath == path
      ensures pathMappings == RememberPath(old(pathMappings), d, path)
      ensures pathHistory == AddToHistory(old(pathHistory), path)
    {
      ghost var loaded := LoadDocument(config, selectedServers, d, replace);
      if config.None? || replace {
        if d.mcpServers.Some? {
          selectedServers := AllSelected(d.mcpServers.value.Keys, true);
        }
        config := Some(d);
      } else if d.mcpServers.Some? {
        config := Some(config.value.(mcpServers := Some(MergeServers(ServersOf(config.value), d.mcpServers.value))));
        selectedServers := MarkEach(selectedServers, d.mcpServers.value.Keys, true);
      }
      assert config == loaded.0 && selectedServers == loaded.1;
      currentPath := path;
      UpdatePathMapping(d, path);
      UpdatePathHistory(path);
    }

    /** `handleSaveFile`: hands `request` to the bridge and applies its `reply`. */
    method HandleSaveFile(customPath: string, reply: SaveReply) returns (request: Option<SaveRequest>)
      modifies this`currentPath, this`pathMappings, this`pathHistory, this`error
      ensures request == SaveRequestFor(old(State()), customPath)
      ensures State() == SaveFile(old(State()), customPath, reply)
    {
      if config.None? {
        return None;
      }
      error := None;
      var content := FilterSelected(config.value.mcpServers, selectedServers);
      if content.None? {
        error := Some(SaveFailed);
        return None;
      }
      var remembered := GetPathForConfig(config.value);
      var savePath := if customPath != "" then customPath else if currentPath != "" then currentPath else remembered;
      request := Some(SaveRequest(content.value, savePath));
      match reply
      case SaveThrew =>
        error := Some(SaveFailed);
      case SaveReturned(path) =>
        if path != "" {
          currentPath := path;
          UpdatePathMapping(Document(Some(content.value), []), path);
          UpdatePathHistory(path);
        }
    }

    /** `handleImportConfig`, given `JSON.parse` of the import text (`None` when it throws). */
    method HandleImportConfig(parsed: Option<Document>)
      modifies this`config, this`selectedServers, this`currentPath, this`importText, this`error
      ensures State() == ImportConfig(old(State()), parsed)
    {
      if parsed.None? {
        error := Some(ImportFailed);
        return;
      }
      var d := parsed.value;
      ghost var imported := ImportedConfig(config, d);
      ghost var selection := ImportedSelection(selectedServers, d);
      if config.None? {
        config := Some(Document(Some(map[]), []));
      }
      var base := config.value;
      if d.mcpServers.Some? {
        config := Some(base.(mcpServers := Some(MergeServers(ServersOf(base), d.mcpServers.value))));
        selectedServers := MarkEach(selectedServers, d.mcpServers.value.Keys, true);
      } else {
        var (name, entry) := Snippet(d);
        config := Some(base.(mcpServers := Some(ServersOf(base)[name := entry])));
        selectedServers := selectedServers[name := true];
      }
      assert config == Some(imported) && selectedServers == selection;
      var path := GetPathForConfig(config.value);
      if path != "" {
        currentPath := path;
      }
      importText := "";
      error := None;
    }
  }
}
