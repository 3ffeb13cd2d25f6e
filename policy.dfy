/**
 * The watcher's fixed configuration and its severity policy: which local
 * ports are watched, which service each one belongs to, and how loudly a
 * new connection to it is reported.
 */
module Policy {
  import opened Options

  /** Local ports under watch: SSH (served on port 7), Minecraft and SSH-Chat. */
  const PORTS: seq<nat> := [7, 25565, 7777]

  datatype Service = Ssh | SshChat | Minecraft

  /** Severity of an alert; the watcher only ever uses these two. */
  datatype Level = Info | Alert

  /** The port each service is watched on. */
  function PortOf(s: Service): nat {
    match s
    case Ssh => 7
    case SshChat => 7777
    case Minecraft => 25565
  }

  /**
   * The `if`/`elif` chain on the local port: defined exactly on the watched
   * ports, and a port maps to the service watched on it.
   */
  function Classify(lport: nat): (r: Option<Service>)
    ensures r.Some? <==> lport in PORTS
    ensures r.Some? ==> PortOf(r.value) == lport
  {
    if lport == 7 then Some(Ssh)
    else if lport == 7777 then Some(SshChat)
    else if lport == 25565 then Some(Minecraft)
    else None
  }

  /** Only SSH is an alarm; the chat and game servers are informational. */
  function LevelOf(s: Service): (l: Level)
    ensures l == Alert <==> s == Ssh
  {
    match s
    case Ssh => Alert
    case SshChat => Info
    case Minecraft => Info
  }

  /** The level tag written into the audit log. */
  function LevelName(l: Level): string {
    match l
    case Info => "INFO"
    case Alert => "ALERT"
  }
}
