/**
 * The server-type switch of the settings dialog
 * (src/components/dialogs/server-settings-dialog.tsx): choosing a type
 * rebuilds the entry from scratch and keeps only its `autoApprove` list.
 */
module ServerSettings {
  import opened Wrappers
  import opened McpConfig

  /** The entry built when the user picks `newType`. */
  function SwitchType(current: Entry, newType: ServerType): (r: Entry)
    ensures r.autoApprove == Some(current.autoApprove.GetOr([]))
    ensures r.disabled.None? && r.waitFor.None? && r.readyWhen.None?
    ensures newType == SSE ==> r == EmptyEntry.(url := Some(""), autoApprove := r.autoApprove)
    ensures newType != SSE ==> r.url.None? && r.command == Some(TypeValue(newType))
    ensures newType != SSE ==> r.args == Some([]) && r.env == Some(map[])
  {
    var approve := Some(current.autoApprove.GetOr([]));
    if newType == SSE then
      Entry(Some(""), None, None, None, None, approve, None, None)
    else
      Entry(None, Some(TypeValue(newType)), Some([]), Some(map[]), None, approve, None, None)
  }

  /** The rebuilt entry classifies as exactly the chosen type. */
  lemma SwitchedEntryClassifies(current: Entry, newType: ServerType)
    ensures GetServerType(SwitchType(current, newType)) == Success(newType)
  {
    if newType != SSE {
      CommandClassifiesAs(newType, SwitchType(current, newType));
    }
  }

  /** The result depends on the current entry only through its `autoApprove` list. */
  lemma SwitchKeepsOnlyAutoApprove(a: Entry, b: Entry, newType: ServerType)
    requires a.autoApprove.GetOr([]) == b.autoApprove.GetOr([])
    ensures SwitchType(a, newType) == SwitchType(b, newType)
  {
  }
}
