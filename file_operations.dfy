/**
 * The live configuration store (src/hooks/use-file-operations.ts): the
 * global `fileState` object and the `fileOperations` handlers that update
 * its fields in place. Each method states its new state through a
 * transition function on `StoreState`; the properties are lemmas about
 * those functions.
 */
module FileOperations {
  import opened Wrappers
  import opened McpConfig
  import opened StoreSpec

  /** `fileState` as the module creates it: the empty configuration `{ mcpServers: {} }`. */
  const Initial: StoreState := StoreState(Some(EmptyDocument), "", map[], [], None, "", map[])

  /**
   * `initializeFromStorage`: the load steps from the initial state; when a
   * `JSON.parse` throws, the `catch` puts the empty configuration back and
   * keeps every other field the steps had set.
   */
  function Loaded(saved: StoredState): (r: StoreState)
    ensures r.config.Some?
    ensures r.error.None? && r.importText == ""
    ensures saved.config.Malformed? || saved.mappings.Malformed? || saved.history.Malformed? ==>
      r.config == Some(EmptyDocument)
  {
    var (s, threw) := LoadSteps(Initial, saved);
    if threw then s.(config := Some(EmptyDocument)) else s
  }

  /** `selectAllServers`: the selection becomes exactly the current names, all mapped to `b`. */
  function SelectAll(s: StoreState, b: bool): (r: StoreState)
    ensures r == s.(selectedServers := r.selectedServers)
  {
    if s.config.None? || s.config.value.mcpServers.None? then s
    else s.(selectedServers := AllSelected(s.config.value.mcpServers.value.Keys, b))
  }

  /** `clearStoredConfig`: an empty configuration, no path, no selection. */
  function Cleared(s: StoreState): (r: StoreState)
    ensures r.config == Some(EmptyDocument) && ConfigIdOf(r.config.value) == EmptyConfigId
    ensures r.pathMappings == s.pathMappings && r.pathHistory == s.pathHistory
    ensures r.error == s.error && r.importText == s.importText
  {
    s.(config := Some(EmptyDocument), currentPath := "", selectedServers := map[])
  }

  /**
   * `handleOpenFile`: `replace` is the answer to the replace-or-merge
   * question, which is asked only when a configuration is loaded.
   */
  function OpenFile(s: StoreState, reply: OpenReply, replace: bool): (r: StoreState)
    ensures r.importText == s.importText
    ensures r.error == Some(OpenFailed) <==> reply.OpenThrew? || (reply.Opened? && reply.parsed.None?)
    ensures r.error.None? <==> !(r.error == Some(OpenFailed))
    ensures !(reply.Opened? && reply.parsed.Some?) ==> r == s.(error := r.error)
  {
    match reply
    case OpenCancelled => s.(error := None)
    case OpenThrew => s.(error := Some(OpenFailed))
    case Opened(path, parsed) =>
      if parsed.None? then s.(error := Some(OpenFailed))
      else
        var d := parsed.value;
        var loaded := LoadDocument(s.config, s.selectedServers, d, replace);
        s.(config := Some(loaded.0), selectedServers := loaded.1, error := None,
           currentPath := path,
           pathMappings := RememberPath(s.pathMappings, d, path),
           pathHistory := AddToHistory(s.pathHistory, path))
  }

  /**
   * The configuration and selection after opening `d`: replaced (every
   * name of `d` selected, when it has servers) when there is no
   * configuration or the user chose to replace, merged otherwise.
   */
  function LoadDocument(config: Option<Document>, sel: map<string, bool>, d: Document, replace: bool): (r: (Document, map<string, bool>))
    ensures config.None? || replace ==> r.0 == d
    ensures forall n :: n in ServersOf(d) ==> n in ServersOf(r.0) && ServersOf(r.0)[n] == ServersOf(d)[n]
    ensures d.mcpServers.Some? ==> forall n :: n in d.mcpServers.value ==> n in r.1 && r.1[n]
    ensures config.Some? && !replace ==> r.0.others == config.value.others
    ensures config.Some? && !replace ==> forall n :: n in ServersOf(config.value) && n !in ServersOf(d) ==>
      n in ServersOf(r.0) && ServersOf(r.0)[n] == ServersOf(config.value)[n]
    ensures config.Some? && !replace ==> forall n :: n in sel && n !in ServersOf(d) ==> n in r.1 && r.1[n] == sel[n]
  {
    if config.None? || replace then
      (d, if d.mcpServers.Some? then AllSelected(d.mcpServers.value.Keys, true) else sel)
    else
      (config.value.(mcpServers := Some(MergeServers(ServersOf(config.value), ServersOf(d)))),
       if d.mcpServers.Some? then MarkSelected(sel, d.mcpServers.value.Keys, true) else sel)
  }

  /** A parsed document reaches the state through `LoadDocument`. */
  lemma OpenedLoads(s: StoreState, path: string, d: Document, replace: bool)
    ensures var loaded := LoadDocument(s.config, s.selectedServers, d, replace);
      OpenFile(s, Opened(path, Some(d)), replace) ==
        s.(config := Some(loaded.0), selectedServers := loaded.1, error := None, currentPath := path,
           pathMappings := RememberPath(s.pathMappings, d, path), pathHistory := AddToHistory(s.pathHistory, path))
  {
  }

  /** Opening with replace: the configuration becomes the parsed document and, when it has servers, exactly its names are selected. */
  lemma OpenReplace(s: StoreState, path: string, d: Document, replace: bool)
    requires s.config.None? || replace
    ensures var r := OpenFile(s, Opened(path, Some(d)), replace);
      && r.config == Some(d)
      && (d.mcpServers.Some? ==> r.selectedServers == AllSelected(d.mcpServers.value.Keys, true))
      && (d.mcpServers.None? ==> r.selectedServers == s.selectedServers)
      && r.currentPath == path && r.error.None? && r.importText == s.importText
  {
  }

  /**
   * Opening with merge: imported entries win on a clash, the other entries
   * and the other top-level members stay, and the imported names are selected.
   */
  lemma OpenMerge(s: StoreState, path: string, d: Document)
    requires s.config.Some?
    ensures var r := OpenFile(s, Opened(path, Some(d)), false);
      && r.config.Some? && r.config.value.others == s.config.value.others
      && ServersOf(r.config.value) == MergeServers(ServersOf(s.config.value), ServersOf(d))
      && (forall n :: n in ServersOf(d) && d.mcpServers.Some? ==> r.selectedServers[n])
      && (forall n :: n in s.selectedServers && n !in ServersOf(d) ==> r.selectedServers[n] == s.selectedServers[n])
  {
    OpenedLoads(s, path, d, false);
  }

  /**
   * After a successful open the opened path is current, is in the history
   * and is remembered for the parsed document's names (not the merged ones).
   */
  lemma OpenRecordsPath(s: StoreState, path: string, d: Document, replace: bool)
    ensures var r := OpenFile(s, Opened(path, Some(d)), replace);
      && r.currentPath == path
      && r.pathHistory == AddToHistory(s.pathHistory, path)
      && PathFor(r.pathMappings, d) == path
      && (forall k :: k in s.pathMappings && k != ConfigIdOf(d) ==> r.pathMappings[k] == s.pathMappings[k])
  {
  }

  /** A cancelled open only clears the error; a failed one only sets it. */
  lemma OpenFailureKeepsState(s: StoreState, path: string, replace: bool)
    ensures OpenFile(s, OpenCancelled, replace) == s.(error := None)
    ensures OpenFile(s, OpenThrew, replace) == s.(error := Some(OpenFailed))
    ensures OpenFile(s, Opened(path, None), replace) == s.(error := Some(OpenFailed))
  {
  }

  /** Saving the selection and opening the saved file with replace loads exactly the selected servers, all selected. */
  lemma SaveThenOpenRoundTrip(s: StoreState, customPath: string, t: StoreState, path: string)
    requires SaveRequestFor(s, customPath).Some?
    ensures var saved := SaveRequestFor(s, customPath).value.content;
      var r := OpenFile(t, Opened(path, Some(Document(Some(saved), []))), true);
      && saved == Exported(ServersOf(s.config.value), s.selectedServers)
      && r.config.Some? && ServersOf(r.config.value) == saved
      && r.selectedServers == AllSelected(saved.Keys, true)
  {
  }

  /** `selectAllServers` leaves a selection whose keys are exactly the current names. */
  lemma SelectAllExact(s: StoreState, b: bool)
    requires s.config.Some? && s.config.value.mcpServers.Some?
    ensures SelectAll(s, b).selectedServers.Keys == s.config.value.mcpServers.value.Keys
    ensures forall n :: n in SelectAll(s, b).selectedServers ==> SelectAll(s, b).selectedServers[n] == b
  {
  }

  /** Open and save keep the history free of repeats and of the empty path. */
  lemma TransitionsKeepHistoryValid(s: StoreState, reply: OpenReply, replace: bool, customPath: string, saveReply: SaveReply)
    requires HistoryValid(s.pathHistory)
    ensures HistoryValid(OpenFile(s, reply, replace).pathHistory)
    ensures HistoryValid(SaveFile(s, customPath, saveReply).pathHistory)
  {
  }

  /**
   * Start-up without a stored history takes it from the stored path table:
   * its non-empty paths, each once; a stored configuration starts fully selected.
   */
  lemma LoadMigratesHistory(saved: StoredState)
    ensures saved.config != Malformed && saved.mappings.Parsed? && saved.history.Absent? ==>
      && HistoryValid(Loaded(saved).pathHistory)
      && forall p :: p in Loaded(saved).pathHistory <==> p != "" && p in Loaded(saved).pathMappings.Values
    ensures saved.config.Absent? ==> Loaded(saved).config == Some(EmptyDocument)
    ensures saved.config.Parsed? && saved.config.value.mcpServers.Some? ==>
      Loaded(saved).selectedServers == AllSelected(saved.config.value.mcpServers.value.Keys, true)
  {
    if saved.config != Malformed && saved.mappings.Parsed? && saved.history.Absent? {
      MigratedHistoryFollowsTable(Initial, saved);
    }
  }

  /**
   * A path table or history that fails to parse after a stored configuration
   * was read: the `catch` puts the empty configuration back but keeps the
   * stored path and the selection of the configuration it dropped.
   */
  lemma LoadFailureResetsOnlyConfig(saved: StoredState)
    requires saved.config.Parsed? && (saved.mappings.Malformed? || saved.history.Malformed?)
    ensures var r := Loaded(saved);
      && r.config == Some(EmptyDocument) && r.currentPath == saved.path
      && (saved.config.value.mcpServers.Some? ==>
            r.selectedServers == AllSelected(saved.config.value.mcpServers.value.Keys, true))
  {
  }

  /** A stored table that repeats a key keeps only its last path, so the migrated history has only that one. */
  lemma MigrationSeesOnlyLastValue()
    ensures Loaded(StoredState(Absent, "", Parsed([("k", "p1"), ("k", "p2")]), Absent)).pathHistory == ["p2"]
  {
    var members := [("k", "p1"), ("k", "p2")];
    assert LastWithKey(members, 1);
    assert MapOf(members) == map["k" := "p2"];
    assert KeyOrder(members) == ["k"];
    assert ValuesOf(members) == ["p2"];
  }

  class FileState {
    var config: Option<Document>
    var currentPath: string
    var pathMappings: map<string, string>
    var pathHistory: seq<string>
    var error: Option<StoreError>
    var importText: string
    var selectedServers: map<string, bool>

    /** The store's fields as one value. */
    function State(): StoreState
      reads this
    {
      StoreState(config, currentPath, pathMappings, pathHistory, error, importText, selectedServers)
    }

    /** `initializeFromStorage`, run once when the module loads. */
    constructor Load(saved: StoredState)
      ensures State() == Loaded(saved)
    {
      config := Some(EmptyDocument);
      currentPath := "";
      pathMappings := map[];
      pathHistory := [];
      error := None;
      importText := "";
      selectedServers := map[];
      new;
      var threw := false;
      match saved.config {
        case Malformed =>
          threw := true;
        case Parsed(d) =>
          config := Some(d);
          if d.mcpServers.Some? {
            selectedServers := AllSelected(d.mcpServers.value.Keys, true);
          }
        case Absent =>
          config := Some(EmptyDocument);
      }
      if !threw {
        if saved.path != "" {
          currentPath := saved.path;
        }
        match saved.mappings {
          case Malformed =>
            threw := true;
          case Parsed(members) =>
            pathMappings := MapOf(members);
          case Absent =>
        }
        if !threw {
          match saved.history {
            case Malformed =>
              threw := true;
            case Parsed(h) =>
              pathHistory := h;
            case Absent =>
              if saved.mappings.Parsed? {
                pathHistory := MigrateHistory(ValuesOf(saved.mappings.value));
              }
          }
        }
      }
      if threw {
        config := Some(EmptyDocument);
      }
    }

    /** `setConfig`. */
    method SetConfig(c: Option<Document>)
      modifies this`config
      ensures config == c
    {
      config := c;
    }

    /** `setImportConfig`: the text the next import parses. */
    method SetImportConfig(text: string)
      modifies this`importText
      ensures importText == text
    {
      importText := text;
    }

    /** `selectSavePath`. */
    method SelectSavePath(path: string)
      modifies this`currentPath
      ensures currentPath == path
    {
      currentPath := path;
    }

    /** `updatePathMapping`. */
    method UpdatePathMapping(d: Document, path: string)
      modifies this`pathMappings
      ensures pathMappings == RememberPath(old(pathMappings), d, path)
    {
      pathMappings := pathMappings[ConfigIdOf(d) := path];
    }

    /** `updatePathHistory`: a new array with the path appended, when it is new and non-empty. */
    method UpdatePathHistory(path: string)
      modifies this`pathHistory
      ensures pathHistory == AddToHistory(old(pathHistory), path)
    {
      if path == "" {
        return;
      }
      if path !in pathHistory {
        pathHistory := pathHistory + [path];
      }
    }

    /** `removePathFromHistory`. */
    method RemovePathFromHistory(path: string)
      modifies this`pathHistory
      ensures pathHistory == RemoveFromHistory(old(pathHistory), path)
    {
      pathHistory := RemoveFromHistory(pathHistory, path);
    }

    /** `clearPathHistory`. */
    method ClearPathHistory()
      modifies this`pathHistory
      ensures pathHistory == []
    {
      pathHistory := [];
    }

    /** `getPathForConfig`: the remembered path for the document's names, or "". */
    method GetPathForConfig(d: Document) returns (path: string)
      ensures path == PathFor(pathMappings, d)
    {
      var id := ConfigIdOf(d);
      path := if id in pathMappings then pathMappings[id] else "";
    }

    /** `toggleServerSelection`. */
    method ToggleServerSelection(name: string)
      modifies this`selectedServers
      ensures selectedServers == Toggle(old(selectedServers), name)
    {
      selectedServers := selectedServers[name := !(name in selectedServers && selectedServers[name])];
    }

    /** `selectAllServers`. */
    method SelectAllServers(b: bool)
      modifies this`selectedServers
      ensures State() == SelectAll(old(State()), b)
    {
      if config.None? || config.value.mcpServers.None? {
        return;
      }
      selectedServers := AllSelected(config.value.mcpServers.value.Keys, b);
    }

    /** `clearStoredConfig`. */
    method ClearStoredConfig()
      modifies this`config, this`currentPath, this`selectedServers
      ensures State() == Cleared(old(State()))
    {
      config := Some(EmptyDocument);
      currentPath := "";
      selectedServers := map[];
    }

    /** `createNewConfig`. */
    method CreateNewConfig()
      modifies this`config, this`currentPath, this`selectedServers
      ensures State() == StoreSpec.CreateNewConfig(old(State()))
    {
      config := Some(EmptyDocument);
      currentPath := "";
      selectedServers := map[];
    }

    /** `handleOpenFile`, given the bridge's reply and the answer to the replace question. */
    method HandleOpenFile(reply: OpenReply, replace: bool)
      modifies this`config, this`selectedServers, this`currentPath, this`pathMappings, this`pathHistory, this`error
      ensures State() == OpenFile(old(State()), reply, replace)
    {
      error := None;
      match reply
      case OpenCancelled =>
      case OpenThrew =>
        error := Some(OpenFailed);
      case Opened(path, parsed) =>
        if parsed.None? {
          error := Some(OpenFailed);
        } else {
          OpenedLoads(State(), path, parsed.value, replace);
          LoadOpened(parsed.value, path, replace);
        }
    }

    /** What `handleOpenFile` does with a parsed document: load it, then record its path. */
    method LoadOpened(d: Document, path: string, replace: bool)
      modifies this`config, this`selectedServers, this`currentPath, this`pathMappings, this`pathHistory
      ensures var loaded := LoadDocument(old(config), old(selectedServers), d, replace);
        config == Some(loaded.0) && selectedServers == loaded.1
      ensures currentPath == path
      ensures pathMappings == RememberPath(old(pathMappings), d, path)
      ensures pathHistory == AddToHistory(old(pathHistory), path)
    {
      ghost var loaded := LoadDocument(config, selectedServers, d, replace);
      if config.None? || replace {
        if d.mcpServers.Some? {
          selectedServers := AllSelected(d.mcpServers.value.Keys, true);
        }
        config := Some(d);
      } else {
        config := Some(config.value.(mcpServers := Some(MergeServers(ServersOf(config.value), ServersOf(d)))));
        if d.mcpServers.Some? {
          selectedServers := MarkEach(selectedServers, d.mcpServers.value.Keys, true);
        }
      }
      assert config == Some(loaded.0) && selectedServers == loaded.1;
      currentPath := path;
      UpdatePathMapping(d, path);
      UpdatePathHistory(path);
    }

    /**
     * `handleSaveFile`: hands `request` to the bridge and applies its
     * `reply`; `request` is `None` when nothing is written.
     */
    method HandleSaveFile(customPath: string, reply: SaveReply) returns (request: Option<SaveRequest>)
      modifies this`currentPath, this`pathMappings, this`pathHistory, this`error
      ensures request == SaveRequestFor(old(State()), customPath)
      ensures State() == SaveFile(old(State()), customPath, reply)
    {
      if config.None? {
        return None;
      }
      error := None;
      var content := FilterSelected(config.value.mcpServers, selectedServers);
      if content.None? {
        error := Some(SaveFailed);
        return None;
      }
      var remembered := GetPathForConfig(config.value);
      var savePath := if customPath != "" then customPath else if currentPath != "" then currentPath else remembered;
      request := Some(SaveRequest(content.value, savePath));
      match reply
      case SaveThrew =>
        error := Some(SaveFailed);
      case SaveReturned(path) =>
        if path != "" {
          currentPath := path;
          UpdatePathMapping(Document(Some(content.value), []), path);
          UpdatePathHistory(path);
        }
    }

    /** `handleImportConfig`, given `JSON.parse` of the import text (`None` when it throws). */
    method HandleImportConfig(parsed: Option<Document>)
      modifies this`config, this`selectedServers, this`currentPath, this`importText, this`error
      ensures State() == ImportConfig(old(State()), parsed)
    {
      if parsed.None? {
        error := Some(ImportFailed);
        return;
      }
      var d := parsed.value;
      ghost var imported := ImportedConfig(config, d);
      ghost var selection := ImportedSelection(selectedServers, d);
      var base := config.GetOr(Document(None, []));
      if d.mcpServers.Some? {
        config := Some(base.(mcpServers := Some(MergeServers(ServersOf(base), d.mcpServers.value))));
        selectedServers := MarkEach(selectedServers, d.mcpServers.value.Keys, true);
      } else {
        var (name, entry) := Snippet(d);
        config := Some(base.(mcpServers := Some(ServersOf(base)[name := entry])));
        selectedServers := selectedServers[name := true];
      }
      assert config == Some(imported) && selectedServers == selection;
      var path := GetPathForConfig(config.value);
      if path != "" {
        currentPath := path;
      }
      importText := "";
      error := None;
    }
  }
}
