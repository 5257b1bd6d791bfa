/**
 * The configuration schema of the editor and the classifier that tells an
 * entry's server type from the keys it carries (src/types/mcp-config.ts).
 */
module McpConfig {
  import opened Wrappers

  /** The four server types; their enum values are "sse", "npx", "uvx" and "node". */
  datatype ServerType = SSE | NPX | UVX | NODE

  /** An `http` readiness probe; its `url` key may be missing. */
  datatype HttpProbe = HttpProbe(url: Option<string>)

  /** A `readyWhen` descriptor; its `http` key may be missing. */
  datatype ReadyWhen = ReadyWhen(http: Option<HttpProbe>)

  /**
   * One server entry as a JSON object. Every key is optional: a key that is
   * absent is `None`, so "key present with an empty value" and "key absent"
   * stay distinct, as the classifier's `in` tests need.
   */
  datatype Entry = Entry(
    url: Option<string>,
    command: Option<string>,
    args: Option<seq<string>>,
    env: Option<map<string, string>>,
    disabled: Option<bool>,
    autoApprove: Option<seq<string>>,
    waitFor: Option<seq<string>>,
    readyWhen: Option<ReadyWhen>)

  /** The `mcpServers` member: entry name to entry. */
  type Servers = map<string, Entry>

  /**
   * A top-level configuration object: its `mcpServers` member when present,
   * and its other members in key order.
   */
  datatype Document = Document(mcpServers: Option<Servers>, others: seq<(string, Entry)>)

  /** The servers of a document, `{}` when its `mcpServers` key is missing. */
  function ServersOf(d: Document): Servers {
    d.mcpServers.GetOr(map[])
  }

  /** The two errors the classifier throws. */
  datatype ClassifyError = UnknownCommand(command: string) | InvalidConfiguration

  /** An entry with no keys at all. */
  const EmptyEntry: Entry := Entry(None, None, None, None, None, None, None, None)

  /** The enum value of a server type. */
  function TypeValue(t: ServerType): string {
    match t
    case SSE => "sse"
    case NPX => "npx"
    case UVX => "uvx"
    case NODE => "node"
  }

  /** `serverTypeMap`: the label shown for a server type. */
  function DisplayName(t: ServerType): (shown: string)
    ensures shown in {"SSE", "npx", "uvx", "node"}
  {
    match t
    case SSE => "SSE"
    case NPX => "npx"
    case UVX => "uvx"
    case NODE => "node"
  }

  /** `serverTypeMapReverse`: the server type for a label, if it is one of the four. */
  function FromDisplayName(shown: string): (t: Option<ServerType>)
    ensures t.Some? <==> shown in {"SSE", "npx", "uvx", "node"}
  {
    if shown == "SSE" then Some(SSE)
    else if shown == "npx" then Some(NPX)
    else if shown == "uvx" then Some(UVX)
    else if shown == "node" then Some(NODE)
    else None
  }

  /** `getServerType`: a `url` key wins, then the `command` value picks a launcher. */
  function GetServerType(e: Entry): (r: Result<ServerType, ClassifyError>)
    ensures e.url.Some? ==> r == Success(SSE)
    ensures e.url.None? && e.command.Some? ==>
      (r.Success? <==> e.command.value in {"npx", "uvx", "node"})
    ensures e.url.None? && e.command.Some? && r.Success? ==> TypeValue(r.value) == e.command.value
    ensures e.url.None? && e.command.Some? && r.Failure? ==> r.error == UnknownCommand(e.command.value)
    ensures e.url.None? && e.command.None? ==> r == Failure(InvalidConfiguration)
  {
    if e.url.Some? then Success(SSE)
    else if e.command.Some? then
      match e.command.value
      case "npx" => Success(NPX)
      case "uvx" => Success(UVX)
      case "node" => Success(NODE)
      case cmd => Failure(UnknownCommand(cmd))
    else Failure(InvalidConfiguration)
  }

  /** The label table and its reverse are inverse bijections on the four types. */
  lemma DisplayNameRoundTrip(t: ServerType, shown: string)
    ensures FromDisplayName(DisplayName(t)) == Some(t)
    ensures FromDisplayName(shown) == Some(t) <==> shown == DisplayName(t)
  {
  }

  /** Distinct types get distinct labels, so the label table loses nothing. */
  lemma DisplayNameInjective(s: ServerType, t: ServerType)
    ensures DisplayName(s) == DisplayName(t) ==> s == t
  {
    DisplayNameRoundTrip(s, DisplayName(s));
    DisplayNameRoundTrip(t, DisplayName(t));
  }

  /** The launcher command of every type other than SSE classifies back to that type. */
  lemma CommandClassifiesAs(t: ServerType, e: Entry)
    requires t != SSE && e.url.None? && e.command == Some(TypeValue(t))
    ensures GetServerType(e) == Success(t)
  {
  }

  /** Classification is total: it either returns one of the four types or one of the two errors, decided by key presence. */
  lemma ClassifyFailsOnlyWithoutKnownLauncher(e: Entry)
    ensures GetServerType(e).Failure? <==>
      e.url.None? && (e.command.None? || e.command.value !in {"npx", "uvx", "node"})
  {
  }
}
