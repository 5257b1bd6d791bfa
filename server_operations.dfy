/**
 * Adding, deleting and replacing a named server entry
 * (src/hooks/use-server-operations.ts). Each operation builds the document
 * handed to `setConfig`; `None` means `setConfig` is not called.
 */
module ServerOperations {
  import opened Wrappers
  import opened McpConfig

  /** The characters JavaScript's `String.prototype.trim` removes (WhiteSpace and LineTerminator). */
  predicate IsJsWhitespace(c: char) {
    c in {'\U{0009}', '\U{000A}', '\U{000B}', '\U{000C}', '\U{000D}', '\U{0020}', '\U{00A0}', '\U{1680}',
          '\U{2000}', '\U{2001}', '\U{2002}', '\U{2003}', '\U{2004}', '\U{2005}', '\U{2006}', '\U{2007}',
          '\U{2008}', '\U{2009}', '\U{200A}', '\U{2028}', '\U{2029}', '\U{202F}', '\U{205F}', '\U{3000}',
          '\U{FEFF}'}
  }

  /** `s.trimStart()`: the longest suffix of `s` that does not start with whitespace. */
  function TrimStart(s: string): (r: string)
    ensures |r| <= |s| && r == s[|s| - |r|..]
    ensures forall i :: 0 <= i < |s| - |r| ==> IsJsWhitespace(s[i])
    ensures r == [] || !IsJsWhitespace(r[0])
  {
    if s != [] && IsJsWhitespace(s[0]) then TrimStart(s[1..]) else s
  }

  /** `s.trimEnd()`: the longest prefix of `s` that does not end with whitespace. */
  function TrimEnd(s: string): (r: string)
    ensures |r| <= |s| && r == s[..|r|]
    ensures forall i :: |r| <= i < |s| ==> IsJsWhitespace(s[i])
    ensures r == [] || !IsJsWhitespace(r[|r| - 1])
  {
    if s != [] && IsJsWhitespace(s[|s| - 1]) then TrimEnd(s[..|s| - 1]) else s
  }

  /** `s.trim()`: leading and then trailing whitespace removed. */
  function Trim(s: string): (r: string)
    ensures r == [] || (!IsJsWhitespace(r[0]) && !IsJsWhitespace(r[|r| - 1]))
    ensures exists i, j :: 0 <= i <= j <= |s| && r == s[i..j]
  {
    var t := TrimStart(s);
    var r := TrimEnd(t);
    assert r == s[|s| - |t|..|s| - |t| + |r|];
    r
  }

  /** `!s.trim()`: nothing is left once leading and trailing whitespace is removed. */
  predicate IsBlank(s: string)
    ensures IsBlank(s) <==> forall i :: 0 <= i < |s| ==> IsJsWhitespace(s[i])
  {
    Trim(s) == ""
  }

  /** The entry a new server starts with. */
  const NewServerEntry: Entry :=
    EmptyEntry.(command := Some("npx"), args := Some([]), autoApprove := Some([]), env := Some(map[]))

  /** `addNewServer`: store the default entry under the untrimmed name. */
  function AddNewServer(config: Option<Document>, name: string): (r: Option<Document>)
    ensures r.None? <==> config.None? || IsBlank(name)
    ensures r.Some? ==> r.value.mcpServers.Some?
    ensures r.Some? ==> ServersOf(r.value).Keys == ServersOf(config.value).Keys + {name}
    ensures r.Some? ==> ServersOf(r.value)[name] == NewServerEntry
    ensures r.Some? ==> forall n :: n in ServersOf(config.value) && n != name ==>
      ServersOf(r.value)[n] == ServersOf(config.value)[n]
    ensures r.Some? ==> r.value.others == config.value.others
  {
    if config.None? || IsBlank(name) then None
    else Some(config.value.(mcpServers := Some(ServersOf(config.value)[name := NewServerEntry])))
  }

  /** `deleteServer`: drop one name, keep every other entry. */
  function DeleteServer(config: Option<Document>, name: string): (r: Option<Document>)
    ensures r.None? <==> config.None? || config.value.mcpServers.None?
    ensures r.Some? ==> r.value.mcpServers.Some?
    ensures r.Some? ==> ServersOf(r.value).Keys == ServersOf(config.value).Keys - {name}
    ensures r.Some? ==> forall n :: n in ServersOf(r.value) ==> ServersOf(r.value)[n] == ServersOf(config.value)[n]
    ensures r.Some? ==> r.value.others == config.value.others
  {
    if config.None? || config.value.mcpServers.None? then None
    else Some(config.value.(mcpServers := Some(config.value.mcpServers.value - {name})))
  }

  /** `updateServerConfig`: total replacement of one entry, inserting it when absent. */
  function UpdateServerConfig(config: Option<Document>, name: string, e: Entry): (r: Option<Document>)
    ensures r.None? <==> config.None? || config.value.mcpServers.None?
    ensures r.Some? ==> r.value.mcpServers.Some?
    ensures r.Some? ==> ServersOf(r.value).Keys == ServersOf(config.value).Keys + {name}
    ensures r.Some? ==> ServersOf(r.value)[name] == e
    ensures r.Some? ==> forall n :: n in ServersOf(config.value) && n != name ==>
      ServersOf(r.value)[n] == ServersOf(config.value)[n]
    ensures r.Some? ==> r.value.others == config.value.others
  {
    if config.None? || config.value.mcpServers.None? then None
    else Some(config.value.(mcpServers := Some(config.value.mcpServers.value[name := e])))
  }

  /** A freshly added server is an npx server. */
  lemma NewServerIsNpx(config: Option<Document>, name: string)
    requires AddNewServer(config, name).Some?
    ensures GetServerType(ServersOf(AddNewServer(config, name).value)[name]) == Success(NPX)
  {
  }

  /** Deleting a name that is not there hands back an equal document. */
  lemma DeleteAbsentIsIdentity(config: Option<Document>, name: string)
    requires config.Some? && config.value.mcpServers.Some? && name !in config.value.mcpServers.value
    ensures DeleteServer(config, name) == config
  {
    assert config.value.mcpServers.value - {name} == config.value.mcpServers.value;
  }

  /** Deleting twice is deleting once. */
  lemma DeleteIdempotent(config: Option<Document>, name: string)
    requires DeleteServer(config, name).Some?
    ensures DeleteServer(DeleteServer(config, name), name) == DeleteServer(config, name)
  {
    DeleteAbsentIsIdentity(DeleteServer(config, name), name);
  }

  /** Replacing an entry and then deleting its name is deleting the name. */
  lemma UpdateThenDelete(config: Option<Document>, name: string, e: Entry)
    requires UpdateServerConfig(config, name, e).Some?
    ensures DeleteServer(UpdateServerConfig(config, name, e), name) == DeleteServer(config, name)
  {
    assert config.value.mcpServers.value[name := e] - {name} == config.value.mcpServers.value - {name};
  }
}
