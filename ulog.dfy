/**
 * ULog: the framework's logging helpers. Each helper is modelled as the line it hands to the
 * host's log sink (or None when it emits nothing); the sink itself is host-owned.
 */
module ULog {
  import opened Wrappers
  import ModSettings

  /** The log level of the host sink a line goes to. */
  datatype Level = MessageLevel | WarningLevel | ErrorLevel

  datatype LogEntry = LogEntry(level: Level, text: string)

  /** The initial value of the static `modid` field. */
  const DefaultModId := "D9 Framework"

  /** The prefix put in front of every prefixed line: the mod id in square brackets and a space. */
  function Prefix(modid: string): (p: string)
    ensures |p| == |modid| + 3
    ensures p[0] == '[' && p[1..|modid| + 1] == modid && p[|modid| + 1..] == "] "
  {
    "[" + modid + "] "
  }

  /** Splits a prefixed line back into mod id and message, the inverse of the prefixing. */
  function Unprefix(modid: string, text: string): (s: Option<string>)
    ensures s.Some? <==> |text| >= |Prefix(modid)| && text[..|Prefix(modid)|] == Prefix(modid)
    ensures s.Some? ==> text == Prefix(modid) + s.value
  {
    var p := Prefix(modid);
    if |text| >= |p| && text[..|p|] == p then Some(text[|p|..]) else None
  }

  function Message(modid: string, s: string): (e: LogEntry)
    ensures e.level == MessageLevel
    ensures Unprefix(modid, e.text) == Some(s)
  {
    LogEntry(MessageLevel, Prefix(modid) + s)
  }

  function Warning(modid: string, s: string): (e: LogEntry)
    ensures e.level == WarningLevel
    ensures Unprefix(modid, e.text) == Some(s)
  {
    LogEntry(WarningLevel, Prefix(modid) + s)
  }

  function Error(modid: string, s: string): (e: LogEntry)
    ensures e.level == ErrorLevel
    ensures Unprefix(modid, e.text) == Some(s)
  {
    LogEntry(ErrorLevel, Prefix(modid) + s)
  }

  /** ULog.DEBUG: the settings store's DEBUG flag, read afresh on every call. */
  function Debug(settings: ModSettings.D9FModSettings): (on: bool)
    reads settings
    ensures on <==> settings.DEBUG
  {
    settings.DEBUG
  }

  /**
   * Emits only when DEBUG is set; then the prefixed line, or `s` exactly when `addPrefix` is false.
   * Callers that omit `addPrefix` get the prefixed line: its default value is true.
   */
  function DebugMessage(modid: string, settings: ModSettings.D9FModSettings, s: string, addPrefix: bool): (e: Option<LogEntry>)
    reads settings
    ensures e.Some? <==> settings.DEBUG
    ensures e.Some? ==> e.value.level == MessageLevel
    ensures e.Some? && addPrefix ==> Unprefix(modid, e.value.text) == Some(s)
    ensures e.Some? && !addPrefix ==> e.value.text == s
  {
    if Debug(settings) then Some(LogEntry(MessageLevel, (if addPrefix then Prefix(modid) else "") + s)) else None
  }

  /** With the default mod id every prefixed line starts with "[D9 Framework] ". */
  lemma DefaultPrefix()
    ensures Prefix(DefaultModId) == "[D9 Framework] "
  {
  }
}
