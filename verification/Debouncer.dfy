/** Device commands: actions go out at once, the states they set are gathered and sent by a timer. */
module Debouncer {

  datatype Command = Command(device: string, motor: string, ir: string, heater: string)

  datatype DeviceState = DeviceState(motor: string, ir: string, heater: string)

  const BLANK: DeviceState := DeviceState("", "", "")

  /** `running` is the single-shot timer; `sent` is what went to the network service. */
  datatype Bridge = Bridge(pending: map<string, DeviceState>, running: bool, sent: seq<Command>)

  const INITIAL: Bridge := Bridge(map[], false, [])

  predicate IsMode(motor: string) {
    motor == "auto" || motor == "unauto"
  }

  predicate IsAction(c: Command) {
    (c.motor != "" && !IsMode(c.motor)) || c.ir in ["on", "off"] || c.heater in ["on", "off"]
  }

  /** The command sets something that outlasts it. */
  predicate Updates(c: Command) {
    IsMode(c.motor) || c.ir != "" || c.heater != ""
  }

  function Updated(st: DeviceState, c: Command): DeviceState {
    DeviceState(if IsMode(c.motor) then c.motor else st.motor,
                if c.ir != "" then c.ir else st.ir,
                if c.heater != "" then c.heater else st.heater)
  }

  function StateOf(pending: map<string, DeviceState>, device: string): DeviceState {
    if device in pending then pending[device] else BLANK
  }

  function Immediate(c: Command): seq<Command> {
    if c.device != "" && IsAction(c) then [c] else []
  }

  function AfterSend(b: Bridge, c: Command): Bridge {
    if c.device == "" then b else
    Bridge(b.pending[c.device := Updated(StateOf(b.pending, c.device), c)], b.running || Updates(c), b.sent + Immediate(c))
  }

  function Message(device: string, st: DeviceState): seq<Command> {
    if st == BLANK then [] else [Command(device, st.motor, st.ir, st.heater)]
  }

  /** The messages of a flush, the pending devices visited in the order given. */
  function Messages(pending: map<string, DeviceState>, order: seq<string>): seq<Command> {
    if order == [] then [] else
    var last := order[|order| - 1];
    Messages(pending, order[..|order| - 1]) + Message(last, StateOf(pending, last))
  }

  lemma MessagesNext(pending: map<string, DeviceState>, order: seq<string>, i: nat)
    requires i < |order|
    ensures Messages(pending, order[..i + 1])
         == Messages(pending, order[..i]) + Message(order[i], StateOf(pending, order[i]))
  {
    assert order[..i + 1][..i] == order[..i];
  }

  function AfterFlush(b: Bridge, order: seq<string>): Bridge {
    Bridge(map[], b.running, b.sent + Messages(b.pending, order))
  }

  /** `order` visits each key once. */
  ghost predicate Visits(order: seq<string>, pending: map<string, DeviceState>) {
    && (forall d :: d in order <==> d in pending)
    && (forall i, j :: 0 <= i < j < |order| ==> order[i] != order[j])
  }

  class NetworkBridge {
    var pending: map<string, DeviceState>
    var running: bool
    var sent: seq<Command>

    constructor ()
      ensures State() == INITIAL
    {
      pending, running, sent := map[], false, [];
    }

    ghost function State(): Bridge
      reads this
    {
      Bridge(pending, running, sent)
    }

    method SendDevice(device: string, motor: string, ir: string, heater: string)
      modifies this
      ensures State() == AfterSend(old(State()), Command(device, motor, ir, heater))
    {
      if device == "" {
        return;
      }
      var isAction := false;
      if motor != "" && motor != "auto" && motor != "unauto" {
        isAction := true;
      }
      if ir == "on" || ir == "off" {
        isAction := true;
      }
      if heater == "on" || heater == "off" {
        isAction := true;
      }
      if isAction {
        sent := sent + [Command(device, motor, ir, heater)];
      }

      var st := StateOf(pending, device);
      var updated := false;
      if motor != "" {
        if motor != "auto" && motor != "unauto" {
        } else {
          st := st.(motor := motor);
          updated := true;
        }
      }
      if ir != "" {
        st := st.(ir := ir);
        updated := true;
      }
      if heater != "" {
        st := st.(heater := heater);
        updated := true;
      }
      pending := pending[device := st];
      if updated {
        running := true;
      }
    }

    method ProcessPendingStates(order: seq<string>)
      requires Visits(order, pending)
      modifies this`pending, this`sent
      ensures State() == AfterFlush(old(State()), order)
    {
      var i := 0;
      while i < |order|
        invariant 0 <= i <= |order|
        invariant pending == old(pending)
        invariant sent == old(sent) + Messages(pending, order[..i])
      {
        MessagesNext(pending, order, i);
        SendPending(order[i]);
        i := i + 1;
      }
      assert order[..i] == order;
      pending := map[];
    }

    method SendPending(ip: string)
      requires ip in pending
      modifies this`sent
      ensures sent == old(sent) + Message(ip, pending[ip])
    {
      var st := pending[ip];
      if st.motor == "" && st.ir == "" && st.heater == "" {
        return;
      }
      sent := sent + [Command(ip, st.motor, st.ir, st.heater)];
    }
  }

  // --------------------------------------------------------------------- runs

  datatype Step = Issue(command: Command) | Timeout(order: seq<string>)

  function Take(b: Bridge, step: Step): Bridge {
    match step
    case Issue(c) => AfterSend(b, c)
    case Timeout(order) => AfterFlush(b.(running := false), order)
  }

  function Run(steps: seq<Step>): Bridge {
    if steps == [] then INITIAL else Take(Run(steps[..|steps| - 1]), steps[|steps| - 1])
  }

  ghost predicate AllPossible(steps: seq<Step>) {
    steps == [] ||
    var before, last := steps[..|steps| - 1], steps[|steps| - 1];
    AllPossible(before) && (last.Timeout? ==> Run(before).running && Visits(last.order, Run(before).pending))
  }

  // ------------------------------------------------- the log it must agree with

  /** The commands issued since the last timeout. */
  function Since(steps: seq<Step>): seq<Command> {
    if steps == [] then [] else
    match steps[|steps| - 1]
    case Issue(c) => Since(steps[..|steps| - 1]) + [c]
    case Timeout(_) => []
  }

  /** The latest of the values given for a device that is not skipped. */
  function Latest(log: seq<Command>, device: string, value: Command -> string, skip: string -> bool): (v: string)
    requires device != ""
  {
    if log == [] then "" else
    var c := log[|log| - 1];
    if c.device == device && !skip(value(c)) then value(c) else Latest(log[..|log| - 1], device, value, skip)
  }

  const MOTOR: Command -> string := (c: Command) => c.motor
  const IR: Command -> string := (c: Command) => c.ir
  const HEATER: Command -> string := (c: Command) => c.heater
  const NOT_A_MODE: string -> bool := (s: string) => !IsMode(s)
  const EMPTY: string -> bool := (s: string) => s == ""

  /** What the log asks of a device: its last mode, and its last non-empty ir and heater values. */
  function Asked(log: seq<Command>, device: string): DeviceState
    requires device != ""
  {
    DeviceState(Latest(log, device, MOTOR, NOT_A_MODE), Latest(log, device, IR, EMPTY), Latest(log, device, HEATER, EMPTY))
  }

  ghost predicate Mirrors(pending: map<string, DeviceState>, log: seq<Command>) {
    && "" !in pending
    && (forall d :: d != "" ==> StateOf(pending, d) == Asked(log, d))
    && (forall d :: d != "" ==> (d in pending <==> exists c :: c in log && c.device == d))
  }

  lemma CommandMirrors(b: Bridge, log: seq<Command>, c: Command)
    requires Mirrors(b.pending, log)
    ensures Mirrors(AfterSend(b, c).pending, log + [c])
  {
    var more := log + [c];
    assert more[..|more| - 1] == log && more[|more| - 1] == c;
    forall d | d != "" ensures StateOf(AfterSend(b, c).pending, d) == Asked(more, d) {
      assert StateOf(b.pending, d) == Asked(log, d);
    }
    forall d | d != "" ensures d in AfterSend(b, c).pending <==> exists e :: e in more && e.device == d {
      assert d in b.pending <==> exists e :: e in log && e.device == d;
      if d == c.device {
        assert c in more;
      } else if d in b.pending {
        var e :| e in log && e.device == d;
        assert e in more;
      }
    }
  }

  /** In every run the pending states are what the commands since the last timeout ask for. */
  lemma {:induction false} PendingMirrorsLog(steps: seq<Step>)
    ensures Mirrors(Run(steps).pending, Since(steps))
  {
    if steps != [] {
      var before, last := steps[..|steps| - 1], steps[|steps| - 1];
      PendingMirrorsLog(before);
      if last.Issue? {
        CommandMirrors(Run(before), Since(before), last.command);
      }
    }
  }

  ghost predicate SomethingPending(pending: map<string, DeviceState>) {
    exists d :: d in pending && pending[d] != BLANK
  }

  /** In every run the timer is running if and only if some field is pending. */
  lemma {:induction false} TimerRunsIffPending(steps: seq<Step>)
    requires AllPossible(steps)
    ensures Run(steps).running <==> SomethingPending(Run(steps).pending)
  {
    if steps != [] {
      var before, last := steps[..|steps| - 1], steps[|steps| - 1];
      TimerRunsIffPending(before);
      var b := Run(before);
      if last.Issue? && last.command.device != "" {
        var c, after := last.command, Run(steps);
        assert after.pending[c.device] == Updated(StateOf(b.pending, c.device), c);
        if SomethingPending(b.pending) {
          var d :| d in b.pending && b.pending[d] != BLANK;
          assert d in after.pending && after.pending[d] != BLANK;
        }
        if SomethingPending(after.pending) && !Updates(c) {
          var d :| d in after.pending && after.pending[d] != BLANK;
          assert d in b.pending && b.pending[d] != BLANK;
        }
      }
    }
  }

  // ------------------------------------------------------------------ the flush

  predicate DistinctDevices(ms: seq<Command>) {
    forall i, j :: 0 <= i < j < |ms| ==> ms[i].device != ms[j].device
  }

  /** The messages are the wanted commands, each device at most once, and no wanted command is missing. */
  ghost predicate Coalesced(messages: seq<Command>, log: seq<Command>) {
    && (forall m :: m in messages <==> Wanted(m, log))
    && DistinctDevices(messages)
  }

  predicate Wanted(m: Command, log: seq<Command>) {
    m.device != "" && DeviceState(m.motor, m.ir, m.heater) == Asked(log, m.device) != BLANK
  }

  lemma {:induction false} MessagesOf(pending: map<string, DeviceState>, order: seq<string>, m: Command)
    ensures m in Messages(pending, order)
       <==> m.device in order && DeviceState(m.motor, m.ir, m.heater) == StateOf(pending, m.device) != BLANK
    decreases |order|
  {
    if order != [] {
      var n := |order| - 1;
      MessagesOf(pending, order[..n], m);
      assert order == order[..n] + [order[n]];
    }
  }

  lemma {:induction false} MessagesAreDistinct(pending: map<string, DeviceState>, order: seq<string>)
    requires forall i, j :: 0 <= i < j < |order| ==> order[i] != order[j]
    ensures DistinctDevices(Messages(pending, order))
    decreases |order|
  {
    if order != [] {
      var n := |order| - 1;
      MessagesAreDistinct(pending, order[..n]);
      var ms := Messages(pending, order[..n]);
      forall i | 0 <= i < |ms| ensures ms[i].device != order[n] {
        MessagesOf(pending, order[..n], ms[i]);
      }
    }
  }

  lemma MessagesAreWanted(pending: map<string, DeviceState>, order: seq<string>, log: seq<Command>, m: Command)
    requires Mirrors(pending, log) && Visits(order, pending)
    ensures m in Messages(pending, order) <==> Wanted(m, log)
  {
    MessagesOf(pending, order, m);
    if m.device != "" {
      assert StateOf(pending, m.device) == Asked(log, m.device);
    }
  }

  /** Whatever happened before it, a timeout sends, for each device the commands since the previous timeout ask
      something of, exactly one message with the last values asked for; it sends nothing else and leaves nothing pending. */
  lemma FlushCoalesces(steps: seq<Step>, order: seq<string>)
    requires AllPossible(steps + [Timeout(order)])
    ensures var before, after := Run(steps), Run(steps + [Timeout(order)]);
            && before.sent <= after.sent
            && Coalesced(after.sent[|before.sent|..], Since(steps))
            && after.pending == map[] && !after.running
  {
    var all := steps + [Timeout(order)];
    assert all[..|all| - 1] == steps;
    var b := Run(steps);
    var ms := Messages(b.pending, order);
    assert Visits(order, b.pending);
    assert Run(all).sent == b.sent + ms;
    assert (b.sent + ms)[|b.sent|..] == ms;
    assert Coalesced(ms, Since(steps)) by {
      PendingMirrorsLog(steps);
      MessagesAreDistinct(b.pending, order);
      forall m ensures m in ms <==> Wanted(m, Since(steps)) {
        MessagesAreWanted(b.pending, order, Since(steps), m);
      }
    }
  }

  /** A command reaches the network service at once, as it is, if and only if it names a device and moves the motor or
      turns ir or heater on or off; else nothing is sent yet. */
  lemma SentAtOnceIff(steps: seq<Step>, c: Command)
    ensures var before, after := Run(steps).sent, Run(steps + [Issue(c)]).sent;
            && (after == before + [c] <==>
                  && c.device != ""
                  && (c.motor !in ["", "auto", "unauto"] || c.ir in ["on", "off"] || c.heater in ["on", "off"]))
            && (after != before + [c] ==> after == before)
  {
    assert (steps + [Issue(c)])[..|steps|] == steps;
  }

  // ----------------------------------------------------------- nothing is lost

  /** Every command issued in the run. */
  function Issued(steps: seq<Step>): seq<Command> {
    if steps == [] then [] else
    var before := Issued(steps[..|steps| - 1]);
    match steps[|steps| - 1]
    case Issue(c) => before + [c]
    case Timeout(_) => before
  }

  /** A setting: one of the three values of a command, and which values do not count. */
  datatype Setting = Motor | Ir | Heater

  function Last(log: seq<Command>, device: string, setting: Setting): (v: string)
    requires device != ""
  {
    match setting
    case Motor => Latest(log, device, MOTOR, NOT_A_MODE)
    case Ir => Latest(log, device, IR, EMPTY)
    case Heater => Latest(log, device, HEATER, EMPTY)
  }

  function PendingOf(st: DeviceState, setting: Setting): string {
    match setting
    case Motor => st.motor
    case Ir => st.ir
    case Heater => st.heater
  }

  /** The value of the setting a command gives, empty when it gives none that counts. */
  function Given(c: Command, setting: Setting): string {
    PendingOf(Updated(BLANK, c), setting)
  }

  /** What was issued last of the setting is pending, or else is what was sent last. */
  predicate Delivered(b: Bridge, log: seq<Command>, device: string, setting: Setting)
    requires device != ""
  {
    var pending := PendingOf(StateOf(b.pending, device), setting);
    Last(log, device, setting) == if pending != "" then pending else Last(b.sent, device, setting)
  }

  lemma LastOn(log: seq<Command>, c: Command, device: string, setting: Setting)
    requires device != ""
    ensures Last(log + [c], device, setting)
         == if c.device == device && Given(c, setting) != "" then Given(c, setting) else Last(log, device, setting)
  {
    assert (log + [c])[..|log|] == log;
  }

  lemma {:induction false} LastConcat(log: seq<Command>, more: seq<Command>, device: string, setting: Setting)
    requires device != ""
    ensures Last(log + more, device, setting)
         == if Last(more, device, setting) != "" then Last(more, device, setting) else Last(log, device, setting)
    decreases |more|
  {
    if more == [] {
      assert log + more == log;
    } else {
      var init, c := more[..|more| - 1], more[|more| - 1];
      assert log + more == (log + init) + [c] && more == init + [c];
      LastConcat(log, init, device, setting);
      LastOn(log + init, c, device, setting);
      LastOn(init, c, device, setting);
    }
  }

  /** The pending values of a flush are modes, or not empty, or blank. */
  predicate Sendable(st: DeviceState) {
    st.motor == "" || IsMode(st.motor)
  }

  predicate AllSendable(pending: map<string, DeviceState>) {
    forall d :: d in pending ==> Sendable(pending[d])
  }

  lemma {:induction false} LastOfMessages(pending: map<string, DeviceState>, order: seq<string>, device: string, setting: Setting)
    requires device != "" && AllSendable(pending)
    requires forall i, j :: 0 <= i < j < |order| ==> order[i] != order[j]
    ensures Last(Messages(pending, order), device, setting)
         == if device in order then PendingOf(StateOf(pending, device), setting) else ""
    decreases |order|
  {
    if order != [] {
      var n := |order| - 1;
      var d, st := order[n], StateOf(pending, order[n]);
      assert order == order[..n] + [d];
      LastOfMessages(pending, order[..n], device, setting);
      if st == BLANK {
        assert Messages(pending, order) == Messages(pending, order[..n]);
      } else {
        LastOn(Messages(pending, order[..n]), Command(d, st.motor, st.ir, st.heater), device, setting);
      }
    }
  }

  lemma IssuePends(b: Bridge, c: Command, device: string, setting: Setting)
    requires device != ""
    ensures PendingOf(StateOf(AfterSend(b, c).pending, device), setting)
         == if c.device == device && Given(c, setting) != "" then Given(c, setting)
            else PendingOf(StateOf(b.pending, device), setting)
  {
  }

  lemma IssueSends(b: Bridge, c: Command, device: string, setting: Setting)
    requires device != ""
    ensures c.device != device || Given(c, setting) == "" ==>
              Last(AfterSend(b, c).sent, device, setting) == Last(b.sent, device, setting)
  {
    if Immediate(c) == [c] {
      LastOn(b.sent, c, device, setting);
    } else {
      assert b.sent + [] == b.sent;
    }
  }

  lemma IssueDelivers(b: Bridge, log: seq<Command>, c: Command, device: string, setting: Setting)
    requires device != "" && Delivered(b, log, device, setting)
    ensures Delivered(AfterSend(b, c), log + [c], device, setting)
  {
    LastOn(log, c, device, setting);
    IssuePends(b, c, device, setting);
    IssueSends(b, c, device, setting);
  }

  lemma FlushDelivers(b: Bridge, log: seq<Command>, order: seq<string>, device: string, setting: Setting)
    requires device != "" && Delivered(b, log, device, setting)
    requires AllSendable(b.pending) && Visits(order, b.pending)
    ensures Delivered(AfterFlush(b, order), log, device, setting)
  {
    LastOfMessages(b.pending, order, device, setting);
    LastConcat(b.sent, Messages(b.pending, order), device, setting);
  }

  lemma {:induction false} RunDelivers(steps: seq<Step>, device: string, setting: Setting)
    requires AllPossible(steps) && device != ""
    ensures AllSendable(Run(steps).pending) && Delivered(Run(steps), Issued(steps), device, setting)
  {
    if steps != [] {
      var before, last := steps[..|steps| - 1], steps[|steps| - 1];
      RunDelivers(before, device, setting);
      match last {
        case Issue(c) => IssueDelivers(Run(before), Issued(before), c, device, setting);
        case Timeout(order) => FlushDelivers(Run(before).(running := false), Issued(before), order, device, setting);
      }
    }
  }

  /** No setting is lost and none is overtaken by an older one: whenever the timer is not running, what was sent last
      of a device's mode, ir or heater is what was last issued of it, in any run of commands and timeouts. */
  lemma LastSettingSent(steps: seq<Step>, device: string, setting: Setting)
    requires AllPossible(steps) && device != "" && !Run(steps).running
    ensures Last(Run(steps).sent, device, setting) == Last(Issued(steps), device, setting)
  {
    RunDelivers(steps, device, setting);
    TimerRunsIffPending(steps);
    assert StateOf(Run(steps).pending, device) == BLANK;
  }
}
