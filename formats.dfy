/**
 * The text the watcher produces for a new connection: the one-line direct
 * message sent to the operator, the audit-log line, and the name of the
 * day's log file. Each format comes with a decoder, and the round-trip
 * lemmas show that every field of a message or log line can be read back
 * unambiguously from the text, whatever the remote address looks like.
 */
module Formats {
  import opened Options
  import opened Text
  import opened Decimal
  import opened Clock
  import opened Policy

  /** The fixed opening of the message for each service; its tag shows the service's level. */
  function ServicePrefix(s: Service): (p: string)
    ensures LevelOf(s) == Alert ==> "[ALERT] " <= p
    ensures LevelOf(s) == Info ==> "[Info] " <= p
  {
    match s
    case Ssh => "[ALERT] New SSH connection on port "
    case SshChat => "[Info] New SSH-Chat connection on port "
    case Minecraft => "[Info] New Minecraft connection on port "
  }

  /** The direct message for a new connection to `lport` from `ip`:`rport`, observed at `when`. */
  function Message(s: Service, lport: nat, ip: string, rport: nat, when: Instant): string {
    ServicePrefix(s) + Digits(lport) + " from " + ip + ":" + Digits(rport) + " at " + TimeStamp(when)
  }

  /**
   * The three branches on the local port: each watched port opens its
   * message with its own wording and logs at its own level.
   */
  lemma PortMessages(lport: nat, ip: string, rport: nat, when: Instant)
    requires lport in PORTS
    ensures var s := Classify(lport).value;
      var m := Message(s, lport, ip, rport, when);
      (lport == 7 ==> "[ALERT] New SSH connection on port " <= m && LevelName(LevelOf(s)) == "ALERT")
      && (lport == 7777 ==> "[Info] New SSH-Chat connection on port " <= m && LevelName(LevelOf(s)) == "INFO")
      && (lport == 25565 ==> "[Info] New Minecraft connection on port " <= m && LevelName(LevelOf(s)) == "INFO")
  {
    var s := Classify(lport).value;
    OpensWith(ServicePrefix(s), Digits(lport), ip, Digits(rport), TimeStamp(when));
  }

  /** Solver aid: a concatenation starts with its first part (stated on plain strings, so it is cheap). */
  lemma OpensWith(p: string, l: string, ip: string, r: string, ts: string)
    ensures p <= p + l + " from " + ip + ":" + r + " at " + ts
  {
    var m := p + l + " from " + ip + ":" + r + " at " + ts;
    assert forall i :: 0 <= i < |p| ==> m[i] == p[i];
  }

  /** What a message says. */
  datatype Notice = Notice(service: Service, lport: nat, ip: string, rport: nat, when: Instant)

  function ParseService(s: string): Option<(Service, string)> {
    match StripPrefix(s, ServicePrefix(Ssh))
    case Some(rest) => Some((Ssh, rest))
    case None =>
      match StripPrefix(s, ServicePrefix(SshChat))
      case Some(rest) => Some((SshChat, rest))
      case None =>
        match StripPrefix(s, ServicePrefix(Minecraft))
        case Some(rest) => Some((Minecraft, rest))
        case None => None
  }

  /**
   * Reads a message back. The timestamp has a fixed width at the end, the
   * remote port follows the last ':' and the local port precedes the first
   * ' ' after the prefix, so the remote address in between may be anything.
   */
  function ParseMessage(m: string): Option<Notice> {
    if |m| < 19 then None
    else
      match ParseTimeStamp(m[|m| - 19..])
      case None => None
      case Some(when) =>
        match StripSuffix(m[..|m| - 19], " at ")
        case None => None
        case Some(head) =>
          match SplitLast(head, ':')
          case None => None
          case Some((front, r)) =>
            match ParseService(front)
            case None => None
            case Some((service, tail)) =>
              match SplitFirst(tail, ' ')
              case None => None
              case Some((l, rest)) =>
                var rport, lport, ip := ParseNat(r), ParseNat(l), StripPrefix(rest, "from ");
                if rport.Some? && lport.Some? && ip.Some?
                then Some(Notice(service, lport.value, ip.value, rport.value, when))
                else None
  }

  lemma ParseServiceOf(s: Service, rest: string)
    ensures ParseService(ServicePrefix(s) + rest) == Some((s, rest))
  {
    var m := ServicePrefix(s) + rest;
    StripPrefixOf(ServicePrefix(s), rest);
    match s
    case Ssh =>
    case SshChat =>
      NoPrefixAt(m, ServicePrefix(Ssh), 1);
    case Minecraft =>
      NoPrefixAt(m, ServicePrefix(Ssh), 1);
      NoPrefixAt(m, ServicePrefix(SshChat), 11);
  }

  /** How a message splits at the separators `ParseMessage` looks for. */
  lemma MessageShape(s: Service, lport: nat, ip: string, rport: nat, when: Instant)
    ensures Message(s, lport, ip, rport, when)
         == (ServicePrefix(s) + (Digits(lport) + [' '] + ("from " + ip))) + [':'] + Digits(rport) + " at " + TimeStamp(when)
  {
    Regroup(ServicePrefix(s), Digits(lport), ip, Digits(rport), TimeStamp(when));
  }

  /** Solver aid: regroups the message's concatenation as `MessageShape` needs it. */
  lemma Regroup(p: string, l: string, ip: string, r: string, ts: string)
    ensures p + l + " from " + ip + ":" + r + " at " + ts == (p + (l + [' '] + ("from " + ip))) + [':'] + r + " at " + ts
  {
  }

  /** Every field of a message is recovered from its text. */
  lemma MessageRoundTrip(s: Service, lport: nat, ip: string, rport: nat, when: Instant)
    requires Valid(when)
    ensures ParseMessage(Message(s, lport, ip, rport, when)) == Some(Notice(s, lport, ip, rport, when))
  {
    var ts := TimeStamp(when);
    TimeStampRoundTrip(when);
    var l, r := Digits(lport), Digits(rport);
    var tail := l + [' '] + ("from " + ip);
    var front := ServicePrefix(s) + tail;
    var head := front + [':'] + r;
    var m := Message(s, lport, ip, rport, when);
    MessageShape(s, lport, ip, rport, when);
    assert m[|m| - 19..] == ts;
    assert m[..|m| - 19] == head + " at ";
    StripSuffixOf(head, " at ");
    NotInDigits(rport, ':');
    SplitLastOf(front, ':', r);
    ParseDigits(rport);
    ParseServiceOf(s, tail);
    NotInDigits(lport, ' ');
    SplitFirstOf(l, ' ', "from " + ip);
    ParseDigits(lport);
    StripPrefixOf("from ", ip);
  }

  /** `log2file`'s line: timestamp and level tag, then the connection's remote and local endpoints. */
  function LogLine(ip: string, rport: nat, lport: nat, level: Level, when: Instant): string {
    "[" + TimeStamp(when) + " - " + LevelName(level) + "] > Connection attempt from " + ip
    + " from remote port " + Digits(rport) + " to local port " + Digits(lport) + "\n"
  }

  /** `log2file`'s file: one per calendar day. */
  function LogFileName(when: Instant): string {
    DateStamp(when) + "-watcher.log"
  }

  /** What a log line says. */
  datatype LogEntry = LogEntry(when: Instant, level: Level, ip: string, rport: nat, lport: nat)

  function LevelTag(l: Level): string {
    " - " + LevelName(l) + "] > Connection attempt from "
  }

  function ParseLevelTag(s: string): Option<(Level, string)> {
    match StripPrefix(s, LevelTag(Alert))
    case Some(rest) => Some((Alert, rest))
    case None =>
      match StripPrefix(s, LevelTag(Info))
      case Some(rest) => Some((Info, rest))
      case None => None
  }

  /** Reads '<ip> from remote port <rport> to local port <lport>' from the right. */
  function ParseEndpoints(s: string): Option<(string, nat, nat)> {
    match SplitLast(s, ' ')
    case None => None
    case Some((head, l)) =>
      match StripSuffix(head, " to local port")
      case None => None
      case Some(middle) =>
        match SplitLast(middle, ' ')
        case None => None
        case Some((front, r)) =>
          var lport, rport, ip := ParseNat(l), ParseNat(r), StripSuffix(front, " from remote port");
          if lport.Some? && rport.Some? && ip.Some? then Some((ip.value, rport.value, lport.value)) else None
  }

  /** Reads a log line back; None for any line the watcher could not have written. */
  function ParseLogLine(line: string): Option<LogEntry> {
    if |line| < 21 || line[0] != '[' || line[|line| - 1] != '\n' then None
    else
      match ParseTimeStamp(line[1..20])
      case None => None
      case Some(when) =>
        match ParseLevelTag(line[20..|line| - 1])
        case None => None
        case Some((level, tail)) =>
          match ParseEndpoints(tail)
          case None => None
          case Some((ip, rport, lport)) => Some(LogEntry(when, level, ip, rport, lport))
  }

  lemma ParseLevelTagOf(l: Level, rest: string)
    ensures ParseLevelTag(LevelTag(l) + rest) == Some((l, rest))
  {
    StripPrefixOf(LevelTag(l), rest);
    if l == Info {
      NoPrefixAt(LevelTag(l) + rest, LevelTag(Alert), 3);
    }
  }

  /**
   * Solver aid: how the endpoint part of a log line splits at the spaces
   * `ParseEndpoints` looks for, stated on plain strings.
   */
  lemma EndpointsShape(ip: string, r: string, l: string)
    ensures ip + " from remote port " + r + " to local port " + l
         == (((ip + " from remote port") + [' '] + r) + " to local port") + [' '] + l
  {
  }

  lemma ParseEndpointsOf(ip: string, rport: nat, lport: nat)
    ensures ParseEndpoints(ip + " from remote port " + Digits(rport) + " to local port " + Digits(lport))
         == Some((ip, rport, lport))
  {
    var r, l := Digits(rport), Digits(lport);
    var front := ip + " from remote port";
    var middle := front + [' '] + r;
    var head := middle + " to local port";
    EndpointsShape(ip, r, l);
    NotInDigits(lport, ' ');
    SplitLastOf(head, ' ', l);
    StripSuffixOf(middle, " to local port");
    NotInDigits(rport, ' ');
    SplitLastOf(front, ' ', r);
    StripSuffixOf(ip, " from remote port");
    ParseDigits(rport);
    ParseDigits(lport);
  }

  /** How a log line splits into timestamp, level tag and endpoints. */
  lemma LogLineShape(ip: string, rport: nat, lport: nat, level: Level, when: Instant)
    ensures LogLine(ip, rport, lport, level, when)
         == "[" + TimeStamp(when)
            + (LevelTag(level) + (ip + " from remote port " + Digits(rport) + " to local port " + Digits(lport)))
            + "\n"
  {
    RegroupLine(TimeStamp(when), LevelName(level), ip, Digits(rport), Digits(lport));
  }

  /** Solver aid: regroups the log line's concatenation as `LogLineShape` needs it. */
  lemma RegroupLine(ts: string, lv: string, ip: string, r: string, l: string)
    ensures "[" + ts + " - " + lv + "] > Connection attempt from " + ip + " from remote port " + r + " to local port " + l + "\n"
         == "[" + ts + ((" - " + lv + "] > Connection attempt from ") + (ip + " from remote port " + r + " to local port " + l)) + "\n"
  {
  }

  /** Every field of a log line is recovered from its text. */
  lemma LogLineRoundTrip(ip: string, rport: nat, lport: nat, level: Level, when: Instant)
    requires Valid(when)
    ensures ParseLogLine(LogLine(ip, rport, lport, level, when)) == Some(LogEntry(when, level, ip, rport, lport))
  {
    var ts := TimeStamp(when);
    TimeStampRoundTrip(when);
    var tail := ip + " from remote port " + Digits(rport) + " to local port " + Digits(lport);
    var line := LogLine(ip, rport, lport, level, when);
    LogLineShape(ip, rport, lport, level, when);
    Bracketed(ts, LevelTag(level) + tail, "\n");
    assert ParseTimeStamp(line[1..20]) == Some(when);
    assert line[20..|line| - 1] == LevelTag(level) + tail;
    ParseLevelTagOf(level, tail);
    ParseEndpointsOf(ip, rport, lport);
  }

  /**
   * A log line ends in its only newline as long as the remote address holds
   * none, so the log gains exactly one physical line per entry.
   */
  lemma LogLineIsOneLine(ip: string, rport: nat, lport: nat, level: Level, when: Instant)
    requires '\n' !in ip
    ensures var line := LogLine(ip, rport, lport, level, when);
      |line| > 0 && line[|line| - 1] == '\n' && '\n' !in line[..|line| - 1]
  {
    var tail := ip + " from remote port " + Digits(rport) + " to local port " + Digits(lport);
    var body := "[" + TimeStamp(when) + (LevelTag(level) + tail);
    var line := LogLine(ip, rport, lport, level, when);
    LogLineShape(ip, rport, lport, level, when);
    assert line[..|line| - 1] == body;
    NoNewlineInTimeStamp(when);
    NoNewlineInLevelTag(level);
    NoNewlineInEndpoints(ip, rport, lport);
  }

  lemma NoNewlineInTimeStamp(when: Instant)
    ensures '\n' !in TimeStamp(when)
  {
    assert AllDigits(ZeroPad(when.year, 4));
  }

  lemma NoNewlineInLevelTag(level: Level)
    ensures '\n' !in LevelTag(level)
  {
    NotInConcat('\n', " - ", LevelName(level));
    NotInConcat('\n', " - " + LevelName(level), "] > Connection attempt from ");
  }

  /** Solver aid: a character is in a concatenation exactly when it is in one of the parts. */
  lemma NotInConcat(c: char, a: string, b: string)
    ensures c in a + b <==> c in a || c in b
  {
  }

  lemma NoNewlineInEndpoints(ip: string, rport: nat, lport: nat)
    requires '\n' !in ip
    ensures '\n' !in ip + " from remote port " + Digits(rport) + " to local port " + Digits(lport)
  {
    NotInDigits(rport, '\n');
    NotInDigits(lport, '\n');
  }

  /**
   * `log2file` reads the clock once for the file name and once more for the
   * line. The line's date matches the name of the file it lands in exactly
   * when both readings fall on the same day; a call that straddles midnight
   * writes a line dated one day into the file of the day before.
   */
  lemma LogLineDatedLikeFile(ip: string, rport: nat, lport: nat, level: Level, stamped: Instant, named: Instant)
    requires Valid(stamped) && Valid(named)
    ensures var line := LogLine(ip, rport, lport, level, stamped);
      |line| > 11
      && (line[1..11] + "-watcher.log" == LogFileName(named)
          <==> (stamped.year, stamped.month, stamped.day) == (named.year, named.month, named.day))
  {
    TimeStampRoundTrip(stamped);
    DateStampRoundTrip(stamped);
    DateStampRoundTrip(named);
    var ts := TimeStamp(stamped);
    var tail := ip + " from remote port " + Digits(rport) + " to local port " + Digits(lport);
    var line := LogLine(ip, rport, lport, level, stamped);
    LogLineShape(ip, rport, lport, level, stamped);
    Bracketed(ts, LevelTag(level) + tail, "\n");
    assert line[1..11] == line[1..20][..10];
    var d1, d2 := DateStamp(stamped), DateStamp(named);
    assert line[1..11] == d1;
    if d1 + "-watcher.log" == d2 + "-watcher.log" {
      assert d1 == (d1 + "-watcher.log")[..10] == (d2 + "-watcher.log")[..10] == d2;
    }
  }

  /** Solver aid: the text right after an opening `[` is read back by slicing. */
  lemma Bracketed(ts: string, a: string, b: string)
    ensures var s := "[" + ts + a + b;
      |s| >= |ts| + 1 && s[1..|ts| + 1] == ts
  {
    var s := "[" + ts + a + b;
    assert forall i :: 0 <= i < |ts| ==> s[1 + i] == ts[i];
  }

  /** Reads the date back out of a log file's name. */
  function ParseLogFileName(name: string): Option<(nat, nat, nat)> {
    match StripSuffix(name, "-watcher.log")
    case None => None
    case Some(date) => ParseDateStamp(date)
  }

  /** Distinct days never share a log file, and each file's name gives back its day. */
  lemma LogFileNameRoundTrip(when: Instant)
    requires Valid(when)
    ensures ParseLogFileName(LogFileName(when)) == Some((when.year, when.month, when.day))
  {
    StripSuffixOf(DateStamp(when), "-watcher.log");
    DateStampRoundTrip(when);
  }
}
