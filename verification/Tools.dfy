/** The five managed actions and their fixed metadata (internal/managed/tools.go). */
module Tools {
  datatype Action = Get | Start | Shutdown | Stop | Reboot

  datatype Metadata = Metadata(toolName: string, requiredState: string, mutation: bool, evidence: seq<string>)

  function MetadataOf(a: Action): Metadata {
    match a
    case Get => Metadata("pve_vm_get", "", false, ["查询", "查看", "状态", "运行吗", "开着吗"])
    case Start => Metadata("pve_vm_start", "stopped", true, ["开启", "启动", "开机", "打开"])
    case Shutdown => Metadata("pve_vm_shutdown", "running", true, ["正常关闭", "正常关机", "优雅关机", "关掉", "关闭", "关机"])
    case Stop => Metadata("pve_vm_stop", "running", true, ["强制停止", "强制关机", "强制断电"])
    case Reboot => Metadata("pve_vm_reboot", "running", true, ["重启", "重新启动"])
  }

  function Evidence(a: Action): seq<string> {
    MetadataOf(a).evidence
  }

  const ALL_ACTIONS: set<Action> := {Get, Start, Shutdown, Stop, Reboot}

  /** The action's string value, as it appears in URLs and deduplication keys. */
  function ActionName(a: Action): string {
    match a
    case Get => "get"
    case Start => "start"
    case Shutdown => "shutdown"
    case Stop => "stop"
    case Reboot => "reboot"
  }

  lemma ToolNamesAreDistinct(a: Action, b: Action)
    requires MetadataOf(a).toolName == MetadataOf(b).toolName
    ensures a == b
  {
  }

  /** No marker is evidence for two actions. */
  lemma EvidenceIsDisjoint(a: Action, b: Action, m: string)
    requires m in Evidence(a) && m in Evidence(b)
    ensures a == b
  {
  }
}
