/** The registry, the simulated device and the simulated network as the objects they are, each method equal
    to its lock section in Devices, and one undisturbed push loop run to its end against a lossy network. */
module DeviceRegistry {
  import opened Wrappers
  import opened Devices

  /** One registered device. */
  class Tracked {
    const id: string
    var desired: nat
    var acked: nat
    var status: Status
    var attempts: nat
    var lastError: string
    var config: Config
    var loopRunning: bool
    var pushedFor: nat

    ghost function View(): Entry
      reads this
    {
      Entry(desired, acked, status, attempts, lastError, config, loopRunning, pushedFor)
    }

    constructor (id: string)
      ensures this.id == id && View() == REGISTERED
    {
      this.id := id;
      desired, acked, status, attempts, lastError, config := 0, 0, Idle, 0, "", map[];
      loopRunning, pushedFor := false, 0;
    }

    /** The next version of the config; says whether a push loop must be launched. */
    method Want(config: Config) returns (started: bool)
      modifies this
      ensures View() == Devices.SetConfig(old(View()), config).0 && (started <==> !old(loopRunning))
    {
      desired := desired + 1;
      this.config, status, lastError := config, Pending, "";
      started := !loopRunning;
      loopRunning := true;
    }
  }

  /** A telemetry record: which device, and what its lock section noted. */
  datatype Record = Record(id: string, note: Note)

  function Records(id: string, notes: seq<Note>): (records: seq<Record>)
    ensures |records| == |notes|
    ensures forall i | 0 <= i < |notes| :: records[i] == Record(id, notes[i])
  {
    seq(|notes|, i requires 0 <= i < |notes| => Record(id, notes[i]))
  }

  class Registry {
    const maxAttempts: nat
    var devs: map<string, Tracked>
    var log: seq<Record>
    var closed: bool

    /** Every device has an entry of its own. */
    ghost predicate Valid()
      reads this
    {
      && maxAttempts >= 1
      && (forall id | id in devs :: devs[id].id == id)
    }

    ghost function Views(): map<string, Entry>
      reads this, devs.Values
    {
      map id | id in devs :: devs[id].View()
    }

    constructor (maxAttempts: int)
      ensures Valid() && Views() == map[] && log == [] && !closed
      ensures this.maxAttempts == if maxAttempts <= 0 then 4 else maxAttempts
    {
      this.maxAttempts := if maxAttempts <= 0 then 4 else maxAttempts;
      devs, log, closed := map[], [], false;
    }

    method Close()
      requires Valid()
      modifies this`closed
      ensures Valid() && closed
    {
      closed := true;
    }

    method Register(id: string) returns (registered: bool)
      requires Valid()
      modifies this`devs
      ensures Valid()
      ensures registered <==> id !in old(devs)
      ensures Views() == if registered then old(Views())[id := REGISTERED] else old(Views())
    {
      if id in devs {
        return false;
      }
      var e := new Tracked(id);
      devs := devs[id := e];
      return true;
    }

    /** `version` is None for an unknown device; `started` says whether a push loop was launched. */
    method SetConfig(id: string, config: Config) returns (version: Option<nat>, started: bool)
      requires Valid()
      modifies this`log, devs.Values
      ensures Valid() && (version.Some? <==> id in devs)
      ensures version.None? ==> Views() == old(Views()) && log == old(log) && !started
      ensures version.Some? ==>
        var (e, notes) := Devices.SetConfig(old(Views())[id], config);
        && Views() == old(Views())[id := e] && log == old(log) + Records(id, notes)
        && version.value == e.desired && (started <==> !old(Views())[id].loopRunning)
      ensures version.Some? ==>
        var was, now := old(Views())[id], devs[id].View();
        && version.value == was.desired + 1
        && now == was.(desired := was.desired + 1, config := config, status := Pending, lastError := "",
                       loopRunning := true)
        && log == old(log) + [Record(id, Note(ConfigSet, was.desired + 1, 0))]
    {
      if id !in devs {
        return None, false;
      }
      var e := devs[id];
      started := e.Want(config);
      log := log + [Record(id, Note(ConfigSet, e.desired, 0))];
      version := Some(e.desired);
      assert forall other | other in devs && other != id :: devs[other] != e;
      assert Views() == old(Views())[id := Devices.SetConfig(old(Views())[id], config).0];
    }

    method Retry(id: string) returns (known: bool, started: bool)
      requires Valid()
      modifies devs.Values
      ensures Valid() && (known <==> id in devs)
      ensures !known ==> Views() == old(Views()) && !started
      ensures known ==>
        && Views() == old(Views())[id := Devices.Retry(old(Views())[id])]
        && (started <==> old(Views())[id].status == Failed && !old(Views())[id].loopRunning)
      ensures known ==>
        var was := old(Views())[id];
        devs[id].View() == if was.status == Failed
                           then was.(status := Pending, pushedFor := 0, lastError := "", loopRunning := true) else was
    {
      if id !in devs {
        return false, false;
      }
      var e := devs[id];
      known, started := true, false;
      if e.status == Failed {
        e.status, e.pushedFor, e.lastError := Pending, 0, "";
        started := !e.loopRunning;
        e.loopRunning := true;
      }
      assert Views() == old(Views())[id := Devices.Retry(old(Views())[id])];
    }

    method StatusOf(id: string) returns (status: Option<Entry>)
      requires Valid()
      ensures status == if id in devs then Some(devs[id].View()) else None
    {
      if id !in devs {
        return None;
      }
      var e := devs[id];
      return Some(Entry(e.desired, e.acked, e.status, e.attempts, e.lastError, e.config, e.loopRunning, e.pushedFor));
    }

    /** The lock section at the head of the push loop; None when the loop ends. */
    method Top(e: Tracked) returns (push: Option<Push>)
      requires Valid()
      modifies this`log, e
      ensures Valid()
      ensures match LoopTop(old(e.View()), closed, maxAttempts)
              case Leave(left, notes) => push == None && e.View() == left && log == old(log) + Records(e.id, notes)
              case Send(left, notes, p) => push == Some(p) && e.View() == left && log == old(log) + Records(e.id, notes)
      ensures push.Some? ==>
        var attempt := 1 + if old(e.pushedFor) == e.desired then old(e.attempts) else 0;
        && !closed && e.acked < e.desired && attempt <= maxAttempts
        && push.value == Push(e.desired, e.config, attempt)
        && e.View() == old(e.View()).(attempts := attempt, pushedFor := e.desired)
      ensures push.None? ==>
        && !e.loopRunning && (closed || e.acked >= e.desired || e.status == Failed)
        && (closed || e.acked >= e.desired ==> e.View() == old(e.View()).(loopRunning := false) && log == old(log))
    {
      if closed || e.acked >= e.desired {
        e.loopRunning := false;
        return None;
      }
      var version := e.desired;
      if e.pushedFor != version {
        e.pushedFor, e.attempts := version, 0;
      }
      if e.attempts >= maxAttempts {
        e.status, e.loopRunning := Failed, false;
        log := log + [Record(e.id, Note(PushFailed, version, e.attempts))];
        return None;
      }
      e.attempts := e.attempts + 1;
      log := log + [Record(e.id, Note(PushMade, version, e.attempts))];
      return Some(Push(version, e.config, e.attempts));
    }

    /** The lock section that handles what a send returned. */
    method Reply(e: Tracked, version: nat, attempt: nat, reply: Result<Ack, string>)
      requires Valid()
      modifies this`log, e
      ensures Valid()
      ensures var (left, notes) := LoopReply(old(e.View()), version, attempt, reply);
              e.View() == left && log == old(log) + Records(e.id, notes)
      ensures var was, now := old(e.View()), e.View();
        match reply
        case Failure(error) => now == was.(lastError := error)
        case Success(ack) =>
          now == if ack.version == was.desired > was.acked
                 then was.(acked := ack.version, status := Acked, lastError := "") else was
    {
      match reply
      case Failure(error) =>
        e.lastError := error;
        log := log + [Record(e.id, Note(AckTimeout, version, attempt))];
      case Success(ack) =>
        if ack.version != e.desired {
          log := log + [Record(e.id, Note(StaleAckIgnored, ack.version, attempt))];
        } else {
          if !ack.applied {
            log := log + [Record(e.id, Note(DuplicateIgnored, version, attempt))];
          }
          if ack.version > e.acked {
            e.acked, e.status, e.lastError := ack.version, Acked, "";
            log := log + [Record(e.id, Note(AckReceived, ack.version, attempt))];
          }
        }
    }

    /** What the device runs is no newer than desired, and is the desired config at the desired version. */
    ghost predicate InStep(e: Tracked, network: SimNetwork)
      reads this, e, network, network.devices.Values
    {
      && Valid() && !closed && e.attempts <= maxAttempts && e.acked <= e.desired
      && network.Valid() && e.id in network.devices && network.Runs(e.id).version <= e.desired
      && (network.Runs(e.id).version == e.desired ==> network.Runs(e.id).config == e.config)
      && (e.acked == e.desired ==> network.Runs(e.id).version == e.desired && e.status == Acked)
    }

    /** One turn of the push loop: leave when acked, give up without budget, or push once. */
    method Round(e: Tracked, network: SimNetwork) returns (running: bool)
      requires InStep(e, network)
      modifies this`log, e, network`sends, network.devices[e.id]
      ensures InStep(e, network) && e.desired == old(e.desired) && e.config == old(e.config)
      ensures running <==> old(e.acked) < e.desired && Budget(maxAttempts, old(e.View())) > 0
      ensures !running ==>
        && !e.loopRunning && e.acked == old(e.acked) && (e.acked < e.desired ==> e.status == Failed)
        && network.Sent(e.id, e.desired) == old(network.Sent(e.id, e.desired))
        && network.Runs(e.id) == old(network.Runs(e.id))
      ensures running ==>
        && Budget(maxAttempts, e.View()) == Budget(maxAttempts, old(e.View())) - 1
        && network.Sent(e.id, e.desired) == old(network.Sent(e.id, e.desired)) + 1
        && e.acked == (if network.Delivers(e.id, e.desired, network.Sent(e.id, e.desired))
                       then e.desired else old(e.acked))
      ensures network.Runs(e.id) == old(network.Runs(e.id)).(received := network.Runs(e.id).received)
              || (old(network.Runs(e.id)).version < e.desired
                  && network.Runs(e.id).applied == old(network.Runs(e.id)).applied + [e.desired]
                     && network.Runs(e.id).version == e.desired)
    {
      var push := Top(e);
      if push == None {
        return false;
      }
      Exchange(e, network, push.value);
      return true;
    }

    // One push of the desired version and what comes of it.
    method Exchange(e: Tracked, network: SimNetwork, push: Push)
      requires InStep(e, network) && e.acked < e.desired && push.version == e.desired && push.config == e.config
      modifies this`log, e, network`sends, network.devices[e.id]
      ensures InStep(e, network) && e.desired == old(e.desired) && e.config == old(e.config)
      ensures e.pushedFor == old(e.pushedFor) && e.attempts == old(e.attempts)
      ensures network.Sent(e.id, e.desired) == old(network.Sent(e.id, e.desired)) + 1
      ensures e.acked == if network.Delivers(e.id, e.desired, network.Sent(e.id, e.desired))
                         then e.desired else old(e.acked)
      ensures network.Runs(e.id) == old(network.Runs(e.id)).(received := network.Runs(e.id).received)
              || (old(network.Runs(e.id)).version < e.desired
                  && network.Runs(e.id).applied == old(network.Runs(e.id)).applied + [e.desired]
                     && network.Runs(e.id).version == e.desired)
    {
      var reply := network.Deliver(e.id, push);
      Reply(e, push.version, push.attempt, reply);
    }

    /** One push loop with no SetConfig, Retry or Close beside it. It ends with the device acked exactly when,
        among the pushes its budget allows, the network lets one and its acknowledgement through; it stops
        at the first of those; and the device then runs the desired config, applied at most once. */
    method PushLoop(e: Tracked, network: SimNetwork)
      requires InStep(e, network) && e.loopRunning && e.acked < e.desired
      modifies this`log, e, network`sends, network.devices[e.id]
      ensures InStep(e, network) && !e.loopRunning && e.desired == old(e.desired) && e.config == old(e.config)
      ensures var past := old(network.Sent(e.id, e.desired)); var budget := Budget(maxAttempts, old(e.View()));
              && e.status == (if Through(network, e.id, e.desired, past, past + budget) then Acked else Failed)
              && StoppedAt(network, e, past, budget)
      ensures network.Runs(e.id).applied == old(network.Runs(e.id).applied)
              || network.Runs(e.id).applied == old(network.Runs(e.id).applied) + [e.desired]
    {
      ghost var past, budget := network.Sent(e.id, e.desired), Budget(maxAttempts, e.View());
      var running := true;
      while running
        invariant InStep(e, network) && e.desired == old(e.desired) && e.config == old(e.config)
        invariant network.devices == old(network.devices)
        invariant var was, now := old(network.Runs(e.id).applied), network.Runs(e.id).applied;
                  now == was || (now == was + [e.desired] && network.Runs(e.id).version == e.desired)
        invariant running ==> Budget(maxAttempts, e.View()) + network.Sent(e.id, e.desired) == past + budget
        invariant StoppedAt(network, e, past, budget) || (running && UnderWay(network, e, past, budget))
        invariant !running ==> !e.loopRunning && e.status == (if e.acked == e.desired then Acked else Failed)
        decreases running, Budget(maxAttempts, e.View())
      {
        running := Round(e, network);
      }
    }
  }

  /** No send of the desired version went through yet, and there is budget for the rest. */
  ghost predicate UnderWay(network: SimNetwork, e: Tracked, past: nat, budget: nat)
    reads e, network
  {
    var last := network.Sent(e.id, e.desired);
    e.acked < e.desired && past <= last <= past + budget && !Through(network, e.id, e.desired, past, last)
  }

  /** Either the last send was the first to go through, or the whole budget was sent in vain. */
  ghost predicate StoppedAt(network: SimNetwork, e: Tracked, past: nat, budget: nat)
    reads e, network
  {
    var last := network.Sent(e.id, e.desired);
    && past <= last <= past + budget
    && if e.acked == e.desired
       then past < last && network.Delivers(e.id, e.desired, last) && !Through(network, e.id, e.desired, past, last - 1)
       else last == past + budget && !Through(network, e.id, e.desired, past, last)
  }

  /** Pushes left for the desired version. */
  ghost function Budget(maxAttempts: nat, e: Entry): nat {
    if e.pushedFor != e.desired then maxAttempts
    else if e.attempts >= maxAttempts then 0
    else maxAttempts - e.attempts
  }

  /** One of the sends after the `past`-th and up to the `last`-th goes through both ways. */
  ghost predicate Through(network: SimNetwork, id: string, version: nat, past: nat, last: int) {
    exists nth: nat :: past < nth <= last && network.Delivers(id, version, nth)
  }

  class SimDevice {
    var version: nat
    var config: Config
    var applies: nat
    var received: nat
    ghost var applied: seq<nat>

    ghost predicate Valid()
      reads this
    {
      applies == |applied|
    }

    ghost function View(): Device
      reads this
    {
      Device(version, config, applied, received)
    }

    constructor ()
      ensures Valid() && View() == NEW_DEVICE
    {
      version, config, applies, received, applied := 0, map[], 0, 0, [];
    }

    method Receive(p: Push) returns (ack: Ack)
      requires Valid()
      modifies this
      ensures Valid() && (View(), ack) == Devices.Receive(old(View()), p)
      ensures (ack.applied <==> p.version > old(version)) && ack.version == version && received == old(received) + 1
      ensures if ack.applied then version == p.version && config == p.config && applies == old(applies) + 1
              else version == old(version) && config == old(config) && applies == old(applies)
    {
      received := received + 1;
      if p.version <= version {
        return Ack(version, false);
      }
      version, config := p.version, p.config;
      applies := applies + 1;
      applied := applied + [p.version];
      return Ack(version, true);
    }
  }

  /** The fault-injecting network: it may drop the nth push of a version, or the acknowledgement of it. */
  class SimNetwork {
    var devices: map<string, SimDevice>
    var sends: map<(string, nat), nat>
    const dropPush: (string, nat, nat) -> bool
    const dropAck: (string, nat, nat) -> bool

    ghost predicate Valid()
      reads this, devices.Values
    {
      forall id | id in devices :: devices[id].Valid()
    }

    function Sent(id: string, version: nat): nat
      reads this
    {
      if (id, version) in sends then sends[(id, version)] else 0
    }

    ghost function Runs(id: string): Device
      requires id in devices
      reads this, devices.Values
    {
      devices[id].View()
    }

    /** The nth push of this version arrives and its acknowledgement comes back. */
    predicate Delivers(id: string, version: nat, nth: nat) {
      !dropPush(id, version, nth) && !dropAck(id, version, nth)
    }

    constructor (dropPush: (string, nat, nat) -> bool, dropAck: (string, nat, nat) -> bool)
      ensures Valid() && devices == map[] && sends == map[] && this.dropPush == dropPush && this.dropAck == dropAck
    {
      devices, sends := map[], map[];
      this.dropPush, this.dropAck := dropPush, dropAck;
    }

    method AddDevice(id: string) returns (device: SimDevice)
      requires Valid()
      modifies this`devices
      ensures Valid() && fresh(device) && device.View() == NEW_DEVICE && devices == old(devices)[id := device]
    {
      device := new SimDevice();
      devices := devices[id := device];
    }

    /** Counts the send, then drops the push, or delivers it and perhaps drops the acknowledgement. */
    method Deliver(id: string, p: Push) returns (reply: Result<Ack, string>)
      requires Valid()
      modifies this`sends, if id in devices then {devices[id]} else {}
      ensures Valid()
      ensures sends == old(sends)[(id, p.version) := old(Sent(id, p.version)) + 1]
      ensures id !in devices ==> reply.Failure?
      ensures id in devices ==>
        var nth := Sent(id, p.version); var (device, ack) := Devices.Receive(old(Runs(id)), p);
        && Runs(id) == (if dropPush(id, p.version, nth) then old(Runs(id)) else device)
        && (reply.Success? <==> Delivers(id, p.version, nth))
        && (reply.Success? ==> reply.value == ack)
    {
      var nth := Sent(id, p.version) + 1;
      sends := sends[(id, p.version) := nth];
      if id !in devices {
        return Failure("unreachable");
      }
      if dropPush(id, p.version, nth) {
        return Failure("timed out");
      }
      var ack := devices[id].Receive(p);
      if dropAck(id, p.version, nth) {
        return Failure("timed out");
      }
      return Success(ack);
    }
  }
}
