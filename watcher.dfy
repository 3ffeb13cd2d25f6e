/**
 * The connection watcher: each polling cycle keeps the established
 * connections to a watched local port, alerts on those whose key was not
 * seen in the previous cycle, and then forgets everything but this cycle's
 * keys. The host's connection table, the clock, the operator's direct
 * messages and the log files are outside the model: a cycle receives the
 * table and the time as arguments, and its messages and log appends are
 * recorded, in the order they happen, in a trace of effects.
 */
module Watcher {
  import opened Options
  import opened Clock
  import opened Policy
  import opened Formats

  /** A socket address: IP address (as text) and port. */
  datatype Addr = Addr(ip: string, port: nat)

  /** One entry of the host's inet connection table, reduced to the fields the watcher reads. */
  datatype Conn = Conn(status: string, laddr: Addr, raddr: Addr)

  /** What identifies a connection across cycles: local port, remote IP, remote port. */
  datatype Key = Key(lport: nat, ip: string, rport: nat)

  /** The filter: established, and on a watched local port. */
  predicate Watched(c: Conn) {
    c.status == "ESTABLISHED" && c.laddr.port in PORTS
  }

  function KeyOf(c: Conn): Key {
    Key(c.laddr.port, c.raddr.ip, c.raddr.port)
  }

  /** The keys of the watched entries of a connection table: one cycle's `current_connections`. */
  function Snapshot(conns: seq<Conn>): set<Key> {
    if conns == [] then {}
    else
      var last := conns[|conns| - 1];
      Snapshot(conns[..|conns| - 1]) + (if Watched(last) then {KeyOf(last)} else {})
  }

  /** A key is in the snapshot exactly when some watched entry of the table has it. */
  lemma {:induction false} SnapshotMembers(conns: seq<Conn>, k: Key)
    ensures k in Snapshot(conns) <==> exists i :: 0 <= i < |conns| && Watched(conns[i]) && KeyOf(conns[i]) == k
  {
    if conns != [] {
      var init := conns[..|conns| - 1];
      SnapshotMembers(init, k);
      if k in Snapshot(init) {
        var i :| 0 <= i < |init| && Watched(init[i]) && KeyOf(init[i]) == k;
        assert conns[i] == init[i];
      }
      if exists i :: 0 <= i < |conns| && Watched(conns[i]) && KeyOf(conns[i]) == k {
        var i :| 0 <= i < |conns| && Watched(conns[i]) && KeyOf(conns[i]) == k;
        if i < |init| {
          assert init[i] == conns[i];
        }
      }
    }
  }

  /** A new connection to report: the service its local port belongs to, and its key. */
  datatype Report = Report(service: Service, key: Key)

  /** The alert one table entry raises against the previous cycle's keys: none, or one. */
  function EntryAlerts(known: set<Key>, c: Conn): seq<Report> {
    if Watched(c) && KeyOf(c) !in known then
      match Classify(c.laddr.port)
      case Some(s) => [Report(s, KeyOf(c))]
      case None => []
    else []
  }

  /**
   * The alerts of one cycle, in table order. Each is for a key of this
   * cycle's snapshot that the previous cycle did not have, and names the
   * service watched on its local port.
   */
  function Alerts(known: set<Key>, conns: seq<Conn>): (r: seq<Report>)
    ensures |r| <= |conns|
    ensures forall a :: a in r ==> a.key in Snapshot(conns) - known && Classify(a.key.lport) == Some(a.service)
  {
    if conns == [] then []
    else Alerts(known, conns[..|conns| - 1]) + EntryAlerts(known, conns[|conns| - 1])
  }

  function AlertKeys(alerts: seq<Report>): set<Key> {
    set a | a in alerts :: a.key
  }

  lemma AlertKeysAppend(xs: seq<Report>, ys: seq<Report>)
    ensures AlertKeys(xs + ys) == AlertKeys(xs) + AlertKeys(ys)
  {
    assert forall a :: a in xs + ys <==> a in xs || a in ys;
  }

  /** As a set, a cycle alerts exactly on the snapshot's keys that the previous cycle lacked. */
  lemma {:induction false} AlertedKeysAreNew(known: set<Key>, conns: seq<Conn>)
    ensures AlertKeys(Alerts(known, conns)) == Snapshot(conns) - known
  {
    if conns != [] {
      var init, last := conns[..|conns| - 1], conns[|conns| - 1];
      AlertedKeysAreNew(known, init);
      AlertKeysAppend(Alerts(known, init), EntryAlerts(known, last));
      if Watched(last) {
        assert Classify(last.laddr.port).Some?;
      }
    }
  }

  /** Alerts are raised entry by entry: the alerts of a table are those of its parts, in order. */
  lemma {:induction false} AlertsAppend(known: set<Key>, xs: seq<Conn>, ys: seq<Conn>)
    ensures Alerts(known, xs + ys) == Alerts(known, xs) + Alerts(known, ys)
    decreases |ys|
  {
    if ys == [] {
      assert xs + ys == xs;
    } else {
      var init := ys[..|ys| - 1];
      assert (xs + ys)[..|xs + ys| - 1] == xs + init;
      AlertsAppend(known, xs, init);
    }
  }

  /**
   * A single entry raises exactly one alert if it passes the filter and its
   * key is not among the previous cycle's, and none otherwise; the alert
   * carries the entry's own key.
   */
  lemma AlertsOfEntry(known: set<Key>, c: Conn)
    ensures |Alerts(known, [c])| == if Watched(c) && KeyOf(c) !in known then 1 else 0
    ensures Alerts(known, [c]) != [] ==> Alerts(known, [c])[0].key == KeyOf(c)
  {
    assert [c][..0] == [];
  }

  /** The alerts of entry `i` sit between those of the entries before and after it. */
  lemma AlertsInOrder(known: set<Key>, conns: seq<Conn>, i: nat)
    requires i < |conns|
    ensures Alerts(known, conns)
         == Alerts(known, conns[..i]) + Alerts(known, [conns[i]]) + Alerts(known, conns[i + 1..])
  {
    assert conns == conns[..i] + [conns[i]] + conns[i + 1..];
    AlertsAppend(known, conns[..i], [conns[i]]);
    AlertsAppend(known, conns[..i] + [conns[i]], conns[i + 1..]);
  }

  /**
   * The "is it new" test looks at the previous cycle's keys only, so an
   * entry listed twice in one table alerts twice although its key enters
   * the snapshot once.
   */
  lemma DuplicateEntryAlertsTwice(known: set<Key>, c: Conn)
    requires Watched(c) && KeyOf(c) !in known
    ensures Snapshot([c, c]) == {KeyOf(c)}
    ensures |Alerts(known, [c, c])| == 2
  {
    assert [c, c][..1] == [c];
    assert [c][..0] == [];
    assert Snapshot([c]) == {KeyOf(c)};
    assert Alerts(known, [c]) == EntryAlerts(known, c);
  }

  /** The first cycle starts from no keys, so it alerts on every key of its snapshot. */
  lemma FirstCycleAlertsAll(conns: seq<Conn>)
    ensures AlertKeys(Alerts({}, conns)) == Snapshot(conns)
  {
    AlertedKeysAreNew({}, conns);
  }

  /** A table seen twice in a row raises nothing the second time. */
  lemma RepeatedCycleIsSilent(conns: seq<Conn>)
    ensures Alerts(Snapshot(conns), conns) == []
  {
    var r := Alerts(Snapshot(conns), conns);
    AlertedKeysAreNew(Snapshot(conns), conns);
    assert r != [] ==> r[0].key in AlertKeys(r);
  }

  /**
   * The known set is replaced, not merged: a key missing from one cycle is
   * forgotten, so the next cycle that has it alerts on it again, whatever
   * cycles came before.
   */
  lemma ForgottenKeyRealerts(gap: seq<Conn>, after: seq<Conn>, k: Key)
    requires k !in Snapshot(gap) && k in Snapshot(after)
    ensures k in AlertKeys(Alerts(Snapshot(gap), after))
  {
    AlertedKeysAreNew(Snapshot(gap), after);
  }

  /**
   * An observable side effect: a direct message to the operator, built from
   * the notice it reports, or a call of `log2file`, which appends the line
   * for its entry to the file of the entry's day.
   */
  datatype Effect = Notify(notice: Notice) | Log(entry: LogEntry)

  /** What reporting one alert does: the direct message first, then the log line. */
  function AlertEffects(r: Report, when: Instant): seq<Effect> {
    [ Notify(Notice(r.service, r.key.lport, r.key.ip, r.key.rport, when)),
      Log(LogEntry(when, LevelOf(r.service), r.key.ip, r.key.rport, r.key.lport)) ]
  }

  function EffectsOf(reports: seq<Report>, when: Instant): seq<Effect> {
    if reports == [] then []
    else EffectsOf(reports[..|reports| - 1], when) + AlertEffects(reports[|reports| - 1], when)
  }

  /** Everything one cycle does, given the previous cycle's keys. */
  function CycleEffects(known: set<Key>, conns: seq<Conn>, when: Instant): seq<Effect> {
    EffectsOf(Alerts(known, conns), when)
  }

  function EffectTime(e: Effect): Instant {
    match e
    case Notify(n) => n.when
    case Log(entry) => entry.when
  }

  /** Every effect of the trace happened at a valid clock reading. */
  predicate TimelyTrace(effects: seq<Effect>) {
    forall i :: 0 <= i < |effects| ==> Valid(EffectTime(effects[i]))
  }

  /** The notices of a trace's direct messages, in order. */
  function Notices(effects: seq<Effect>): seq<Notice> {
    if effects == [] then []
    else
      Notices(effects[..|effects| - 1])
      + match effects[|effects| - 1]
        case Notify(n) => [n]
        case Log(_) => []
  }

  /** The text of a trace's direct messages, in order: the message of each of its notices. */
  function Notifications(effects: seq<Effect>): seq<string> {
    Rendered(Notices(effects), NoticeText)
  }

  function NoticeText(n: Notice): string {
    Message(n.service, n.lport, n.ip, n.rport, n.when)
  }

  /** The entries a trace logs to the file `name`, in order. */
  function Entries(effects: seq<Effect>, name: string): seq<LogEntry> {
    if effects == [] then []
    else
      Entries(effects[..|effects| - 1], name)
      + match effects[|effects| - 1]
        case Log(e) => if LogFileName(e.when) == name then [e] else []
        case Notify(_) => []
  }

  /** The lines a trace appends to the file `name`, in order: the `log2file` lines of its entries for that file. */
  function FileLines(effects: seq<Effect>, name: string): seq<string> {
    Rendered(Entries(effects, name), EntryLine)
  }

  function EntryLine(e: LogEntry): string {
    LogLine(e.ip, e.rport, e.lport, e.level, e.when)
  }

  /** Each item rendered to text by `render`, in order. */
  function Rendered<A>(xs: seq<A>, render: A -> string): seq<string> {
    if xs == [] then []
    else Rendered(xs[..|xs| - 1], render) + [render(xs[|xs| - 1])]
  }

  /** Each direct message of a trace decodes to the notice it was built from. */
  lemma NotificationsDecode(effects: seq<Effect>)
    requires TimelyTrace(effects)
    ensures |Notifications(effects)| == |Notices(effects)|
    ensures forall i :: 0 <= i < |Notices(effects)| ==> ParseMessage(Notifications(effects)[i]) == Some(Notices(effects)[i])
  {
    NotificationsRender(effects);
    forall i | 0 <= i < |Notices(effects)|
      ensures ParseMessage(Notifications(effects)[i]) == Some(Notices(effects)[i])
    {
      var n := Notices(effects)[i];
      MessageRoundTrip(n.service, n.lport, n.ip, n.rport, n.when);
    }
  }

  /** The direct messages of a trace are its notices, rendered one by one; their time stamps come from the trace. */
  lemma NotificationsRender(effects: seq<Effect>)
    requires TimelyTrace(effects)
    ensures |Notifications(effects)| == |Notices(effects)|
    ensures forall i :: 0 <= i < |Notices(effects)| ==>
      var n := Notices(effects)[i]; Valid(n.when) && Notifications(effects)[i] == Message(n.service, n.lport, n.ip, n.rport, n.when)
  {
    NoticesTimely(effects);
    RenderedAt(Notices(effects), NoticeText);
  }

  /** Every notice of a timely trace has a valid time. */
  lemma {:induction false} NoticesTimely(effects: seq<Effect>)
    requires TimelyTrace(effects)
    ensures forall i :: 0 <= i < |Notices(effects)| ==> Valid(Notices(effects)[i].when)
    decreases |effects|
  {
    if effects != [] {
      TimelyPrefix(effects);
      NoticesTimely(effects[..|effects| - 1]);
    }
  }

  /** Each line a trace appends to a file decodes to the entry it was written for. */
  lemma FileLinesDecode(effects: seq<Effect>, name: string)
    requires TimelyTrace(effects)
    ensures |FileLines(effects, name)| == |Entries(effects, name)|
    ensures forall i :: 0 <= i < |Entries(effects, name)| ==> ParseLogLine(FileLines(effects, name)[i]) == Some(Entries(effects, name)[i])
  {
    FileLinesRender(effects, name);
    forall i | 0 <= i < |Entries(effects, name)|
      ensures ParseLogLine(FileLines(effects, name)[i]) == Some(Entries(effects, name)[i])
    {
      var e := Entries(effects, name)[i];
      LogLineRoundTrip(e.ip, e.rport, e.lport, e.level, e.when);
    }
  }

  /** The lines a trace appends to `name` are its entries for that file, rendered one by one. */
  lemma FileLinesRender(effects: seq<Effect>, name: string)
    requires TimelyTrace(effects)
    ensures |FileLines(effects, name)| == |Entries(effects, name)|
    ensures forall i :: 0 <= i < |Entries(effects, name)| ==>
      var e := Entries(effects, name)[i];
      Valid(e.when) && LogFileName(e.when) == name && FileLines(effects, name)[i] == LogLine(e.ip, e.rport, e.lport, e.level, e.when)
  {
    EntriesBelong(effects, name);
    RenderedAt(Entries(effects, name), EntryLine);
  }

  /** Every entry a timely trace logs to `name` has a valid time and belongs to that file. */
  lemma {:induction false} EntriesBelong(effects: seq<Effect>, name: string)
    requires TimelyTrace(effects)
    ensures forall i :: 0 <= i < |Entries(effects, name)| ==>
      Valid(Entries(effects, name)[i].when) && LogFileName(Entries(effects, name)[i].when) == name
    decreases |effects|
  {
    if effects != [] {
      TimelyPrefix(effects);
      EntriesBelong(effects[..|effects| - 1], name);
    }
  }

  /** One text per item, in order, each the rendering of its item. */
  lemma {:induction false} RenderedAt<A>(xs: seq<A>, render: A -> string)
    ensures |Rendered(xs, render)| == |xs|
    ensures forall i :: 0 <= i < |xs| ==> Rendered(xs, render)[i] == render(xs[i])
    decreases |xs|
  {
    if xs != [] {
      RenderedAt(xs[..|xs| - 1], render);
    }
  }

  /**
   * Everything reported together carries the one reading it was reported
   * at, so reports made at a valid reading make a timely trace.
   */
  lemma {:induction false} EffectsOfTimely(reports: seq<Report>, when: Instant)
    requires Valid(when)
    ensures forall i :: 0 <= i < |EffectsOf(reports, when)| ==> EffectTime(EffectsOf(reports, when)[i]) == when
    ensures TimelyTrace(EffectsOf(reports, when))
    decreases |reports|
  {
    if reports != [] {
      var init, r := reports[..|reports| - 1], reports[|reports| - 1];
      EffectsOfTimely(init, when);
      var prev, step := EffectsOf(init, when), AlertEffects(r, when);
      assert EffectTime(step[0]) == when && EffectTime(step[1]) == when;
      forall i | 0 <= i < |prev + step| ensures EffectTime((prev + step)[i]) == when {
        if i < |prev| {
          assert (prev + step)[i] == prev[i];
        } else {
          assert (prev + step)[i] == step[i - |prev|];
        }
      }
    }
  }

  lemma TimelyAppend(a: seq<Effect>, b: seq<Effect>)
    requires TimelyTrace(a) && TimelyTrace(b)
    ensures TimelyTrace(a + b)
  {
    forall i | 0 <= i < |a + b| ensures Valid(EffectTime((a + b)[i])) {
      if i < |a| {
        assert (a + b)[i] == a[i];
      } else {
        assert (a + b)[i] == b[i - |a|];
      }
    }
  }

  /**
   * What one cycle writes to the day's log file: one line per alert, in
   * table order, each the `log2file` line for the alert's remote address,
   * local port and level, and each reading back as exactly that entry.
   */
  lemma CycleFileLines(known: set<Key>, conns: seq<Conn>, when: Instant)
    requires Valid(when)
    ensures var rs, lines := Alerts(known, conns), FileLines(CycleEffects(known, conns, when), LogFileName(when));
      |lines| == |rs|
      && forall i :: 0 <= i < |rs| ==>
           lines[i] == LogLine(rs[i].key.ip, rs[i].key.rport, rs[i].key.lport, LevelOf(rs[i].service), when)
           && ParseLogLine(lines[i]) == Some(LogEntry(when, LevelOf(rs[i].service), rs[i].key.ip, rs[i].key.rport, rs[i].key.lport))
  {
    var rs := Alerts(known, conns);
    var effects := EffectsOf(rs, when);
    EffectsOfTimely(rs, when);
    ReportOutputs(rs, when);
    FileLinesRender(effects, LogFileName(when));
    FileLinesDecode(effects, LogFileName(when));
  }

  /**
   * The direct messages one cycle sends: one per alert, in table order, each
   * the message for the alert's service and key, and each reading back as
   * exactly that notice.
   */
  lemma CycleNotifications(known: set<Key>, conns: seq<Conn>, when: Instant)
    requires Valid(when)
    ensures var rs, texts := Alerts(known, conns), Notifications(CycleEffects(known, conns, when));
      |texts| == |rs|
      && forall i :: 0 <= i < |rs| ==>
           texts[i] == Message(rs[i].service, rs[i].key.lport, rs[i].key.ip, rs[i].key.rport, when)
           && ParseMessage(texts[i]) == Some(Notice(rs[i].service, rs[i].key.lport, rs[i].key.ip, rs[i].key.rport, when))
  {
    var rs := Alerts(known, conns);
    var effects := EffectsOf(rs, when);
    EffectsOfTimely(rs, when);
    ReportOutputs(rs, when);
    NotificationsRender(effects);
    NotificationsDecode(effects);
  }

  /**
   * A cycle only adds to what was written before it, and what it adds is
   * stamped with its own, valid, reading.
   */
  lemma CycleExtendsTrace(prev: seq<Effect>, known: set<Key>, conns: seq<Conn>, when: Instant)
    requires Valid(when)
    ensures forall name :: FileLines(prev, name) <= FileLines(prev + CycleEffects(known, conns, when), name)
    ensures TimelyTrace(prev) ==> TimelyTrace(prev + CycleEffects(known, conns, when))
  {
    var added := CycleEffects(known, conns, when);
    forall name
      ensures FileLines(prev, name) <= FileLines(prev + added, name)
    {
      FileLinesAppend(prev, added, name);
    }
    EffectsOfTimely(Alerts(known, conns), when);
    if TimelyTrace(prev) {
      TimelyAppend(prev, added);
    }
  }

  /** Every prefix of a timely trace is timely, and so is its last effect. */
  lemma TimelyPrefix(effects: seq<Effect>)
    requires TimelyTrace(effects) && effects != []
    ensures TimelyTrace(effects[..|effects| - 1])
    ensures Valid(EffectTime(effects[|effects| - 1]))
  {
    var init := effects[..|effects| - 1];
    forall i | 0 <= i < |init| ensures Valid(EffectTime(init[i])) {
      assert init[i] == effects[i];
    }
  }

  lemma {:induction false} NoticesAppend(e1: seq<Effect>, e2: seq<Effect>)
    ensures Notices(e1 + e2) == Notices(e1) + Notices(e2)
    decreases |e2|
  {
    if e2 == [] {
      assert e1 + e2 == e1;
    } else {
      var init := e2[..|e2| - 1];
      assert (e1 + e2)[..|e1 + e2| - 1] == e1 + init;
      NoticesAppend(e1, init);
    }
  }

  lemma {:induction false} EntriesAppend(e1: seq<Effect>, e2: seq<Effect>, name: string)
    ensures Entries(e1 + e2, name) == Entries(e1, name) + Entries(e2, name)
    decreases |e2|
  {
    if e2 == [] {
      assert e1 + e2 == e1;
    } else {
      var init := e2[..|e2| - 1];
      assert (e1 + e2)[..|e1 + e2| - 1] == e1 + init;
      EntriesAppend(e1, init, name);
    }
  }

  /** Files only grow: a later trace appends to what an earlier one wrote and changes none of it. */
  lemma FileLinesAppend(e1: seq<Effect>, e2: seq<Effect>, name: string)
    ensures FileLines(e1 + e2, name) == FileLines(e1, name) + FileLines(e2, name)
  {
    EntriesAppend(e1, e2, name);
    RenderedAppend(Entries(e1, name), Entries(e2, name), EntryLine);
  }

  lemma {:induction false} RenderedAppend<A>(xs: seq<A>, ys: seq<A>, render: A -> string)
    ensures Rendered(xs + ys, render) == Rendered(xs, render) + Rendered(ys, render)
    decreases |ys|
  {
    if ys == [] {
      assert xs + ys == xs;
    } else {
      var init := ys[..|ys| - 1];
      assert (xs + ys)[..|xs + ys| - 1] == xs + init;
      RenderedAppend(xs, init, render);
    }
  }

  /** How the snapshot and the effects of a cycle grow by one table entry. */
  lemma CycleStep(known: set<Key>, conns: seq<Conn>, i: nat, when: Instant)
    requires i < |conns|
    ensures Snapshot(conns[..i + 1])
         == Snapshot(conns[..i]) + (if Watched(conns[i]) then {KeyOf(conns[i])} else {})
    ensures CycleEffects(known, conns[..i + 1], when)
         == CycleEffects(known, conns[..i], when) + EffectsOf(EntryAlerts(known, conns[i]), when)
  {
    assert conns[..i + 1][..i] == conns[..i];
    EffectsOfConcat(Alerts(known, conns[..i]), EntryAlerts(known, conns[i]), when);
  }

  /** Solver aid: associativity of concatenation for traces, invoked where a loop needs it. */
  lemma AppendAssoc(a: seq<Effect>, b: seq<Effect>, c: seq<Effect>)
    ensures a + b + c == a + (b + c)
  {
  }

  lemma {:induction false} EffectsOfConcat(xs: seq<Report>, ys: seq<Report>, when: Instant)
    ensures EffectsOf(xs + ys, when) == EffectsOf(xs, when) + EffectsOf(ys, when)
    decreases |ys|
  {
    if ys == [] {
      assert xs + ys == xs;
    } else {
      var init := ys[..|ys| - 1];
      assert (xs + ys)[..|xs + ys| - 1] == xs + init;
      EffectsOfConcat(xs, init, when);
    }
  }

  lemma EffectsOfSingle(r: Report, when: Instant)
    ensures EffectsOf([r], when) == AlertEffects(r, when)
  {
    assert [r][..0] == [];
  }

  /**
   * Each report yields exactly one direct message and exactly one entry in
   * the log file named for the reading, in report order, and (with one
   * reading per cycle) nothing in any other file; the
   * message carries the report's service, key and time, the entry its
   * service's level, key and time.
   */
  lemma {:induction false} ReportOutputs(reports: seq<Report>, when: Instant)
    ensures var ns := Notices(EffectsOf(reports, when));
      |ns| == |reports|
      && forall i :: 0 <= i < |reports| ==>
           ns[i] == Notice(reports[i].service, reports[i].key.lport, reports[i].key.ip, reports[i].key.rport, when)
    ensures var es := Entries(EffectsOf(reports, when), LogFileName(when));
      |es| == |reports|
      && forall i :: 0 <= i < |reports| ==>
           es[i] == LogEntry(when, LevelOf(reports[i].service), reports[i].key.ip, reports[i].key.rport, reports[i].key.lport)
    ensures forall name :: name != LogFileName(when) ==> Entries(EffectsOf(reports, when), name) == []
    decreases |reports|
  {
    if reports != [] {
      var init, r := reports[..|reports| - 1], reports[|reports| - 1];
      ReportOutputs(init, when);
      var prev, step := EffectsOf(init, when), AlertEffects(r, when);
      assert EffectsOf(reports, when) == prev + step;
      NoticesAppend(prev, step);
      AlertEffectsOutputs(r, when);
      forall name
        ensures Entries(EffectsOf(reports, when), name) == Entries(prev, name) + Entries(step, name)
      {
        EntriesAppend(prev, step, name);
      }
      forall i | 0 <= i < |init| ensures reports[i] == init[i] { }
    }
  }

  /** Reporting one alert sends its notice and logs its entry to the file of its day, and nothing else. */
  lemma AlertEffectsOutputs(r: Report, when: Instant)
    ensures Notices(AlertEffects(r, when)) == [Notice(r.service, r.key.lport, r.key.ip, r.key.rport, when)]
    ensures forall name ::
      Entries(AlertEffects(r, when), name)
        == (if name == LogFileName(when) then [LogEntry(when, LevelOf(r.service), r.key.ip, r.key.rport, r.key.lport)] else [])
  {
    var n := Notice(r.service, r.key.lport, r.key.ip, r.key.rport, when);
    var step := AlertEffects(r, when);
    assert step[..1] == [Notify(n)];
    assert [Notify(n)][..0] == [];
    assert Notices([Notify(n)]) == [n];
    forall name ensures Entries([Notify(n)], name) == [] {
      assert Entries([Notify(n)], name) == Entries([], name) + [];
    }
  }

  /** One polling cycle's input: the connection table and the time it is read at. */
  datatype Poll = Poll(conns: seq<Conn>, when: Instant)

  /** The known keys after a run of cycles: the last cycle's snapshot, whatever came before it. */
  function KnownAfter(known: set<Key>, polls: seq<Poll>): set<Key> {
    if polls == [] then known else Snapshot(polls[|polls| - 1].conns)
  }

  /** Everything a run of cycles does, starting from the keys `known`. */
  function RunEffects(known: set<Key>, polls: seq<Poll>): seq<Effect> {
    if polls == [] then []
    else
      var init, last := polls[..|polls| - 1], polls[|polls| - 1];
      RunEffects(known, init) + CycleEffects(KnownAfter(known, init), last.conns, last.when)
  }

  /** How a run of cycles grows by one poll. */
  lemma RunStep(known: set<Key>, polls: seq<Poll>, n: nat)
    requires n < |polls|
    ensures KnownAfter(known, polls[..n + 1]) == Snapshot(polls[n].conns)
    ensures RunEffects(known, polls[..n + 1])
         == RunEffects(known, polls[..n]) + CycleEffects(KnownAfter(known, polls[..n]), polls[n].conns, polls[n].when)
  {
    assert polls[..n + 1][..n] == polls[..n];
  }

  /**
   * A connection seen, seen again, gone for a cycle and back: the operator
   * hears of it on the first and the last cycle only, and the log gains one
   * entry for each of those two cycles, in the file named for its reading.
   */
  lemma ReappearanceScenario(c: Conn, w1: Instant, w2: Instant, w3: Instant, w4: Instant)
    requires Watched(c)
    ensures var s := Classify(c.laddr.port).value;
      Notices(RunEffects({}, [Poll([c], w1), Poll([c], w2), Poll([], w3), Poll([c], w4)]))
        == [ Notice(s, c.laddr.port, c.raddr.ip, c.raddr.port, w1),
             Notice(s, c.laddr.port, c.raddr.ip, c.raddr.port, w4) ]
    ensures var s := Classify(c.laddr.port).value;
      forall name ::
        Entries(RunEffects({}, [Poll([c], w1), Poll([c], w2), Poll([], w3), Poll([c], w4)]), name)
          == (if name == LogFileName(w1) then [LogEntry(w1, LevelOf(s), c.raddr.ip, c.raddr.port, c.laddr.port)] else [])
             + (if name == LogFileName(w4) then [LogEntry(w4, LevelOf(s), c.raddr.ip, c.raddr.port, c.laddr.port)] else [])
  {
    var r := Report(Classify(c.laddr.port).value, KeyOf(c));
    var e1, e4 := AlertEffects(r, w1), AlertEffects(r, w4);
    ScenarioTrace(c, w1, w2, w3, w4);
    NoticesAppend(e1, e4);
    AlertEffectsOutputs(r, w1);
    AlertEffectsOutputs(r, w4);
    forall name
      ensures Entries(e1 + e4, name) == Entries(e1, name) + Entries(e4, name)
    {
      EntriesAppend(e1, e4, name);
    }
  }

  /** The seen, seen, gone, back run reports the connection on its first and last cycle. */
  lemma ScenarioTrace(c: Conn, w1: Instant, w2: Instant, w3: Instant, w4: Instant)
    requires Watched(c)
    ensures var r := Report(Classify(c.laddr.port).value, KeyOf(c));
      RunEffects({}, [Poll([c], w1), Poll([c], w2), Poll([], w3), Poll([c], w4)])
        == AlertEffects(r, w1) + AlertEffects(r, w4)
  {
    var s := Classify(c.laddr.port).value;
    var polls := [Poll([c], w1), Poll([c], w2), Poll([], w3), Poll([c], w4)];
    var k := KeyOf(c);
    var r := Report(s, k);
    assert [c][..0] == [];
    assert Snapshot([c]) == {k};
    assert Alerts({}, [c]) == [r];
    assert Alerts({k}, [c]) == [];
    var e1, e4 := AlertEffects(r, w1), AlertEffects(r, w4);
    EffectsOfSingle(r, w1);
    EffectsOfSingle(r, w4);
    assert CycleEffects({}, [c], w1) == e1;
    assert CycleEffects({}, [c], w4) == e4;
    assert polls[..1] == [polls[0]] && [polls[0]][..0] == [];
    assert polls[..2][..1] == polls[..1] && polls[..3][..2] == polls[..2] && polls[..3] == polls[..4][..3];
    assert polls[..4] == polls;
    assert RunEffects({}, polls[..1]) == e1;
    assert RunEffects({}, polls[..2]) == e1;
    assert RunEffects({}, polls[..3]) == e1;
  }

  /**
   * The watcher's state, `known_connections`, and the trace of everything
   * it has sent and logged so far.
   */
  class ConnectionWatcher {
    var known: set<Key>
    var effects: seq<Effect>

    /** Monitoring starts with no known connections and nothing sent or logged. */
    constructor ()
      ensures known == {} && effects == []
    {
      known := {};
      effects := [];
    }

    /** Sends the direct message for `notice` to the operator. */
    method SendDmNotification(notice: Notice)
      modifies this
      ensures known == old(known)
      ensures effects == old(effects) + [Notify(notice)]
    {
      effects := effects + [Notify(notice)];
    }

    /** Appends the line for a connection attempt to the log file of the day of `when`. */
    method Log2File(ip: string, rport: nat, lport: nat, level: Level, when: Instant)
      modifies this
      ensures known == old(known)
      ensures effects == old(effects) + [Log(LogEntry(when, level, ip, rport, lport))]
    {
      effects := effects + [Log(LogEntry(when, level, ip, rport, lport))];
    }

    /**
     * The body of the filter's `if` for one watched table entry: if its key
     * was not known in the previous cycle, send the message for its service
     * and log the attempt at that service's level.
     */
    method ReportIfNew(conn: Conn, when: Instant)
      requires Watched(conn)
      modifies this
      ensures known == old(known)
      ensures effects == old(effects) + EffectsOf(EntryAlerts(known, conn), when)
    {
      var key := Key(conn.laddr.port, conn.raddr.ip, conn.raddr.port);
      if key !in known {
        var service;
        if conn.laddr.port == 7 {
          service := Ssh;
          SendDmNotification(Notice(Ssh, conn.laddr.port, conn.raddr.ip, conn.raddr.port, when));
          Log2File(conn.raddr.ip, conn.raddr.port, conn.laddr.port, Alert, when);
        } else if conn.laddr.port == 7777 {
          service := SshChat;
          SendDmNotification(Notice(SshChat, conn.laddr.port, conn.raddr.ip, conn.raddr.port, when));
          Log2File(conn.raddr.ip, conn.raddr.port, conn.laddr.port, Info, when);
        } else {
          service := Minecraft;
          SendDmNotification(Notice(Minecraft, conn.laddr.port, conn.raddr.ip, conn.raddr.port, when));
          Log2File(conn.raddr.ip, conn.raddr.port, conn.laddr.port, Info, when);
        }
        assert EntryAlerts(known, conn) == [Report(service, key)];
        EffectsOfSingle(Report(service, key), when);
      } else {
        assert EntryAlerts(known, conn) == [];
      }
    }

    /**
     * One polling cycle over the connection table `conns`, read at `when`:
     * reports every new watched entry, in table order, then replaces the
     * known keys by this cycle's snapshot. No file loses or changes a line.
     */
    method Step(conns: seq<Conn>, when: Instant)
      requires Valid(when)
      modifies this
      ensures known == Snapshot(conns)
      ensures effects == old(effects) + CycleEffects(old(known), conns, when)
      ensures forall name :: FileLines(old(effects), name) <= FileLines(effects, name)
      ensures TimelyTrace(old(effects)) ==> TimelyTrace(effects)
    {
      var current: set<Key> := {};
      var i := 0;
      while i < |conns|
        invariant 0 <= i <= |conns|
        invariant known == old(known)
        invariant current == Snapshot(conns[..i])
        invariant effects == old(effects) + CycleEffects(known, conns[..i], when)
      {
        var conn := conns[i];
        CycleStep(known, conns, i, when);
        if conn.status == "ESTABLISHED" && conn.laddr.port in PORTS {
          current := current + {Key(conn.laddr.port, conn.raddr.ip, conn.raddr.port)};
          ReportIfNew(conn, when);
        }
        AppendAssoc(old(effects), CycleEffects(known, conns[..i], when), EffectsOf(EntryAlerts(known, conn), when));
        i := i + 1;
      }
      assert conns[..|conns|] == conns;
      known := current;
      CycleExtendsTrace(old(effects), old(known), conns, when);
    }

    /**
     * The watch loop, for as many cycles as `polls` lists: one `Step` per
     * cycle, each against the keys the cycle before it left.
     */
    method CheckConnections(polls: seq<Poll>)
      requires forall n :: 0 <= n < |polls| ==> Valid(polls[n].when)
      modifies this
      ensures known == KnownAfter(old(known), polls)
      ensures effects == old(effects) + RunEffects(old(known), polls)
      ensures TimelyTrace(old(effects)) ==> TimelyTrace(effects)
    {
      for n := 0 to |polls|
        invariant known == KnownAfter(old(known), polls[..n])
        invariant effects == old(effects) + RunEffects(old(known), polls[..n])
        invariant TimelyTrace(old(effects)) ==> TimelyTrace(effects)
      {
        RunStep(old(known), polls, n);
        ghost var before := effects;
        Step(polls[n].conns, polls[n].when);
        AppendAssoc(old(effects), RunEffects(old(known), polls[..n]), effects[|before|..]);
      }
      assert polls[..|polls|] == polls;
    }
  }
}
