/**
 The rules of the text gate written out marker by marker, apart from the tables and loops of the code. `RuleProofs`
 shows that the code follows them.
 */
module Rules {
  import opened Text
  import opened Decimal
  import opened Tools

  // ---- What a text asks for ----

  predicate AsksGet(t: string) {
    Contains(t, "查询") || Contains(t, "查看") || Contains(t, "状态") || Contains(t, "运行吗") || Contains(t, "开着吗")
  }

  predicate AsksStart(t: string) {
    Contains(t, "开启") || Contains(t, "启动") || Contains(t, "开机") || Contains(t, "打开")
  }

  /** The shutdown markers that the count of actions knows. */
  predicate AsksCountedShutdown(t: string) {
    || Contains(t, "正常关闭") || Contains(t, "正常关机") || Contains(t, "优雅关机")
    || Contains(t, "关闭") || Contains(t, "关机")
  }

  predicate AsksShutdown(t: string) {
    AsksCountedShutdown(t) || Contains(t, "关掉")
  }

  predicate AsksStop(t: string) {
    Contains(t, "强制停止") || Contains(t, "强制关机") || Contains(t, "强制断电")
  }

  predicate AsksReboot(t: string) {
    Contains(t, "重启") || Contains(t, "重新启动")
  }

  predicate Asks(t: string, a: Action) {
    match a
    case Get => AsksGet(t)
    case Start => AsksStart(t)
    case Shutdown => AsksShutdown(t)
    case Stop => AsksStop(t)
    case Reboot => AsksReboot(t)
  }

  /**
   Nothing else is asked for: no other action's marker is in the text, but the short shutdown marker inside the
   forced one, if that is the first forced marker of the table, and the start marker inside the long restart marker.
   */
  predicate AsksNothingElse(t: string, a: Action) {
    match a
    case Get => !AsksStart(t) && !AsksShutdown(t) && !AsksStop(t) && !AsksReboot(t)
    case Start => !AsksGet(t) && !AsksShutdown(t) && !AsksStop(t) && !AsksReboot(t)
    case Shutdown => !AsksGet(t) && !AsksStart(t) && !AsksStop(t) && !AsksReboot(t)
    case Stop =>
      && !AsksGet(t) && !AsksStart(t) && !AsksReboot(t)
      && !Contains(t, "正常关闭") && !Contains(t, "正常关机") && !Contains(t, "优雅关机")
      && !Contains(t, "关闭") && !Contains(t, "关掉")
      && (Contains(t, "关机") ==> Contains(t, "强制关机") && !Contains(t, "强制停止"))
    case Reboot =>
      && !AsksGet(t) && !AsksShutdown(t) && !AsksStop(t)
      && !Contains(t, "开启") && !Contains(t, "开机") && !Contains(t, "打开")
      && (Contains(t, "启动") ==> Contains(t, "重新启动"))
  }

  predicate Conditional(t: string) {
    || Contains(t, "如果") || Contains(t, "假如") || Contains(t, "要是") || Contains(t, "确认后") || Contains(t, "完成后")
    || Contains(t, "全部") || Contains(t, "所有") || Contains(t, "分别") || Contains(t, "依次")
    || Contains(t, "然后") || Contains(t, "接着")
    || (Contains(t, "等") && Contains(t, "再"))
  }

  predicate Negated(t: string) {
    || Contains(t, "不要") || Contains(t, "别") || Contains(t, "禁止") || Contains(t, "取消") || Contains(t, "无需")
    || Contains(t, "不允许") || Contains(t, "不是") || Contains(t, "没有") || Contains(t, "没开")
  }

  // ---- How many actions a text is counted for ----

  function WithoutForced(t: string): string {
    RemoveAll(RemoveAll(RemoveAll(t, "强制停止"), "强制关机"), "强制断电")
  }

  function WithoutRestart(t: string): string {
    RemoveAll(RemoveAll(t, "重新启动"), "重启")
  }

  function WithoutShutdown(t: string): string {
    RemoveAll(RemoveAll(RemoveAll(RemoveAll(RemoveAll(t, "正常关闭"), "正常关机"), "优雅关机"), "关闭"), "关机")
  }

  function One(b: bool): nat {
    if b then 1 else 0
  }

  function Counted(t: string): nat {
    var unforced := WithoutForced(t);
    var unrestarted := WithoutRestart(unforced);
    One(AsksStop(t)) + One(AsksReboot(unforced)) + One(AsksCountedShutdown(unrestarted)) +
    One(AsksStart(WithoutShutdown(unrestarted)))
  }

  // ---- The ID, the tool and the state ----

  /** v is the only number the text names, and it is a positive 64-bit one. */
  ghost predicate IsTheId(t: string, v: nat) {
    0 < v < 9223372036854775808 && Names(t, v) && forall u: nat | Names(t, u) :: u == v
  }

  function ToolName(a: Action): string {
    match a
    case Get => "pve_vm_get"
    case Start => "pve_vm_start"
    case Shutdown => "pve_vm_shutdown"
    case Stop => "pve_vm_stop"
    case Reboot => "pve_vm_reboot"
  }

  /** Everything the text itself must be for the action to be executed on VM v. */
  ghost predicate Grants(t: string, a: Action, v: nat) {
    && IsTheId(t, v) && !Conditional(t) && Counted(t) <= 1
    && Asks(t, a) && AsksNothingElse(t, a) && (a != Get ==> !Negated(t))
  }
}
