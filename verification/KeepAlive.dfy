/** The keep-alive timers of a connected pair over streams that deliver every packet
    within a bounded delay. Time passes only when nothing is due: no packet has
    reached its maximal delay, no keep-alive tick and no first ping is pending. */
module KeepAlive {

  datatype Config = Config(
    delay: nat,            // every packet arrives within this time
    hostTick: nat,         // the host's keep-alive interval, asked for by the device
    deviceTick: nat,       // the device's, asked for by the host
    hostTimeout: nat,
    deviceTimeout: nat
  )

  /** One endpoint after its handshake; `lastHeard` is when its peer-timeout timer was
      last reset. */
  datatype Clock = Clock(connected: bool, pingDue: bool, nextTick: nat, lastHeard: nat)

  /** Packets in flight are represented by the times at which they were sent. */
  datatype Timed = Timed(now: nat, host: Clock, device: Clock, toHost: seq<nat>, toDevice: seq<nat>)

  /** The device has just sent its ControlHello. */
  const INIT: Timed := Timed(0, Clock(false, false, 0, 0), Clock(false, false, 0, 0), [0], [])

  datatype Event =
    | HostHears | DeviceHears           // a packet arrives
    | HostPings | DevicePings           // the first ping of `run`
    | HostTicks | DeviceTicks           // the keep-alive timer
    | HostSends | DeviceSends           // any other packet
    | TimePasses

  predicate Quiet(now: nat, sender: Clock, flight: seq<nat>, delay: nat) {
    && (flight != [] ==> now < flight[0] + delay)
    && (sender.connected ==> !sender.pingDue && now < sender.nextTick)
  }

  predicate Enabled(c: Config, s: Timed, e: Event) {
    match e
    case HostHears => s.toHost != []
    case DeviceHears => s.toDevice != []
    case HostPings => s.host.connected && s.host.pingDue
    case DevicePings => s.device.connected && s.device.pingDue
    case HostTicks => s.host.connected && !s.host.pingDue && s.now == s.host.nextTick
    case DeviceTicks => s.device.connected && !s.device.pingDue && s.now == s.device.nextTick
    case HostSends => s.host.connected && !s.host.pingDue
    case DeviceSends => s.device.connected && !s.device.pingDue
    case TimePasses => Quiet(s.now, s.device, s.toHost, c.delay) && Quiet(s.now, s.host, s.toDevice, c.delay)
  }

  function Apply(c: Config, s: Timed, e: Event): Timed
    requires Enabled(c, s, e)
  {
    match e
    case HostHears =>
      var t := s.(toHost := s.toHost[1..]);
      if s.host.connected then t.(host := s.host.(lastHeard := s.now))
      else t.(host := Clock(true, true, s.now + c.hostTick, s.now), toDevice := s.toDevice + [s.now])
    case DeviceHears =>
      var t := s.(toDevice := s.toDevice[1..]);
      if s.device.connected then t.(device := s.device.(lastHeard := s.now))
      else t.(device := Clock(true, true, s.now + c.deviceTick, s.now))
    case HostPings => s.(host := s.host.(pingDue := false), toDevice := s.toDevice + [s.now])
    case DevicePings => s.(device := s.device.(pingDue := false), toHost := s.toHost + [s.now])
    case HostTicks => s.(host := s.host.(nextTick := s.now + c.hostTick), toDevice := s.toDevice + [s.now])
    case DeviceTicks => s.(device := s.device.(nextTick := s.now + c.deviceTick), toHost := s.toHost + [s.now])
    case HostSends => s.(toDevice := s.toDevice + [s.now])
    case DeviceSends => s.(toHost := s.toHost + [s.now])
    case TimePasses => s.(now := s.now + 1)
  }

  ghost predicate Next(c: Config, s: Timed, t: Timed) {
    exists e :: Enabled(c, s, e) && t == Apply(c, s, e)
  }

  ghost predicate IsRun(c: Config, run: seq<Timed>) {
    && run != [] && run[0] == INIT
    && forall i :: 0 <= i < |run| - 1 ==> Next(c, run[i], run[i + 1])
  }

  /** Packets in flight are in order, neither early nor late, and successive ones
      were sent at most one interval apart. */
  ghost predicate Steady(now: nat, flight: seq<nat>, interval: nat, delay: nat) {
    && (forall i :: 0 <= i < |flight| ==> flight[i] <= now <= flight[i] + delay)
    && (forall i :: 0 <= i < |flight| - 1 ==> flight[i] <= flight[i + 1] <= flight[i] + interval)
  }

  /** The sender's next tick is due within one interval of the last packet. */
  ghost predicate Sends(now: nat, sender: Clock, flight: seq<nat>, interval: nat, delay: nat) {
    && Steady(now, flight, interval, delay)
    && (sender.connected ==> now <= sender.nextTick <= now + interval)
    && (sender.connected && flight != [] ==> sender.nextTick <= flight[|flight| - 1] + interval)
  }

  /** The first thing still to arrive was sent, or will be, at most `gap` after the
      receiver last heard: the gap is one interval, or one delay if that is longer
      and the first thing may be the device's first ping. */
  ghost predicate HeardSoon(now: nat, sender: Clock, receiver: Clock, flight: seq<nat>, interval: nat, gap: nat) {
    receiver.connected ==>
      && receiver.lastHeard <= now
      && (flight != [] ==> flight[0] <= receiver.lastHeard + gap)
      && (flight == [] && sender.connected ==>
            if sender.pingDue then now <= receiver.lastHeard + gap else sender.nextTick <= receiver.lastHeard + interval)
  }

  function HostGap(c: Config): nat {
    if c.deviceTick <= c.delay then c.delay else c.deviceTick
  }

  /** The order of the handshake. */
  ghost predicate Handshaking(s: Timed) {
    && (s.device.connected ==> s.host.connected)
    && (!s.host.connected ==> |s.toHost| == 1 && s.toDevice == [])
    && (s.host.connected && !s.device.connected ==>
          s.toHost == [] && s.toDevice != [] && s.toDevice[0] == s.host.lastHeard)
    && (s.device.connected && s.device.pingDue ==> s.toHost == [])
  }

  ghost predicate Inv(c: Config, s: Timed) {
    && Sends(s.now, s.device, s.toHost, c.deviceTick, c.delay)
    && Sends(s.now, s.host, s.toDevice, c.hostTick, c.delay)
    && HeardSoon(s.now, s.device, s.host, s.toHost, c.deviceTick, HostGap(c))
    && HeardSoon(s.now, s.host, s.device, s.toDevice, c.hostTick, c.hostTick)
    && Handshaking(s)
  }

  lemma SteadySend(now: nat, flight: seq<nat>, interval: nat, delay: nat)
    requires Steady(now, flight, interval, delay)
    requires flight != [] ==> now <= flight[|flight| - 1] + interval
    ensures Steady(now, flight + [now], interval, delay)
  {
    var longer := flight + [now];
    forall i | 0 <= i < |longer| - 1
      ensures longer[i] <= longer[i + 1] <= longer[i] + interval
    {
      assert longer[i] == flight[i];
      if i < |flight| - 1 {
        assert longer[i + 1] == flight[i + 1];
      }
    }
  }

  lemma SteadyArrive(now: nat, flight: seq<nat>, interval: nat, delay: nat)
    requires Steady(now, flight, interval, delay) && flight != []
    ensures Steady(now, flight[1..], interval, delay)
    ensures |flight| > 1 ==> flight[1..][0] <= flight[0] + interval && flight[1..][|flight| - 2] == flight[|flight| - 1]
  {
    var rest := flight[1..];
    assert forall i :: 0 <= i < |rest| ==> rest[i] == flight[i + 1];
    forall i | 0 <= i < |rest| - 1
      ensures rest[i] <= rest[i + 1] <= rest[i] + interval
    {
      assert flight[i + 1] <= flight[i + 1 + 1] <= flight[i + 1] + interval;
    }
    assert |flight| > 1 ==> flight[0 + 1] <= flight[0] + interval;
  }

  /** A packet reaches a connected receiver: its timer restarts. */
  lemma ArrivalKeeps(now: nat, sender: Clock, receiver: Clock, flight: seq<nat>, interval: nat, delay: nat, gap: nat)
    requires Sends(now, sender, flight, interval, delay) && flight != [] && receiver.connected && interval <= gap
    ensures Sends(now, sender, flight[1..], interval, delay)
    ensures HeardSoon(now, sender, receiver.(lastHeard := now), flight[1..], interval, gap)
  {
    SteadyArrive(now, flight, interval, delay);
  }

  /** A connected sender sends something, and may restart its tick. */
  lemma SendKeeps(now: nat, sender: Clock, receiver: Clock, flight: seq<nat>, interval: nat, delay: nat, gap: nat, nextTick: nat)
    requires Sends(now, sender, flight, interval, delay) && sender.connected && interval <= gap
    requires HeardSoon(now, sender, receiver, flight, interval, gap)
    requires nextTick == sender.nextTick || nextTick == now + interval
    ensures var after := sender.(pingDue := false, nextTick := nextTick);
      && Sends(now, after, flight + [now], interval, delay)
      && HeardSoon(now, after, receiver, flight + [now], interval, gap)
  {
    SteadySend(now, flight, interval, delay);
  }

  lemma HostHearsInv(c: Config, s: Timed)
    requires Inv(c, s) && Enabled(c, s, HostHears)
    ensures Inv(c, Apply(c, s, HostHears))
  {
    if s.host.connected {
      ArrivalKeeps(s.now, s.device, s.host, s.toHost, c.deviceTick, c.delay, HostGap(c));
    } else {
      assert [] + [s.now] == [s.now];
    }
  }

  lemma DeviceHearsInv(c: Config, s: Timed)
    requires Inv(c, s) && Enabled(c, s, DeviceHears)
    ensures Inv(c, Apply(c, s, DeviceHears))
  {
    var t := Apply(c, s, DeviceHears);
    ArrivalKeeps(s.now, s.host, t.device, s.toDevice, c.hostTick, c.delay, c.hostTick);
  }

  lemma HostSendsInv(c: Config, s: Timed, e: Event)
    requires Inv(c, s) && Enabled(c, s, e) && (e.HostPings? || e.HostTicks? || e.HostSends?)
    ensures Inv(c, Apply(c, s, e))
  {
    SendKeeps(s.now, s.host, s.device, s.toDevice, c.hostTick, c.delay, c.hostTick, Apply(c, s, e).host.nextTick);
    assert s.toDevice != [] ==> (s.toDevice + [s.now])[0] == s.toDevice[0];
  }

  lemma DeviceSendsInv(c: Config, s: Timed, e: Event)
    requires Inv(c, s) && Enabled(c, s, e) && (e.DevicePings? || e.DeviceTicks? || e.DeviceSends?)
    ensures Inv(c, Apply(c, s, e))
  {
    SendKeeps(s.now, s.device, s.host, s.toHost, c.deviceTick, c.delay, HostGap(c), Apply(c, s, e).device.nextTick);
  }

  /** The oldest packet in flight bounds the age of all of them. */
  lemma QuietSteady(now: nat, flight: seq<nat>, interval: nat, delay: nat)
    requires Steady(now, flight, interval, delay) && (flight != [] ==> now < flight[0] + delay)
    ensures Steady(now + 1, flight, interval, delay)
  {
    forall i | 0 <= i < |flight|
      ensures flight[0] <= flight[i]
    {
      InOrder(flight, i);
    }
  }

  lemma TimePassesInv(c: Config, s: Timed)
    requires Inv(c, s) && Enabled(c, s, TimePasses)
    ensures Inv(c, Apply(c, s, TimePasses))
  {
    QuietSteady(s.now, s.toHost, c.deviceTick, c.delay);
    QuietSteady(s.now, s.toDevice, c.hostTick, c.delay);
  }

  lemma {:induction false} InOrder(flight: seq<nat>, i: nat)
    requires i < |flight|
    requires forall j :: 0 <= j < |flight| - 1 ==> flight[j] <= flight[j + 1]
    ensures flight[0] <= flight[i]
  {
    if i > 0 {
      InOrder(flight, i - 1);
      assert flight[i - 1] <= flight[i - 1 + 1];
    }
  }

  lemma StepInv(c: Config, s: Timed, e: Event)
    requires Inv(c, s) && Enabled(c, s, e)
    ensures Inv(c, Apply(c, s, e))
  {
    match e
    case HostHears => HostHearsInv(c, s);
    case DeviceHears => DeviceHearsInv(c, s);
    case HostPings => HostSendsInv(c, s, e);
    case HostTicks => HostSendsInv(c, s, e);
    case HostSends => HostSendsInv(c, s, e);
    case DevicePings => DeviceSendsInv(c, s, e);
    case DeviceTicks => DeviceSendsInv(c, s, e);
    case DeviceSends => DeviceSendsInv(c, s, e);
    case TimePasses => TimePassesInv(c, s);
  }

  lemma {:induction false} RunInv(c: Config, run: seq<Timed>, i: nat)
    requires IsRun(c, run) && i < |run|
    ensures Inv(c, run[i])
  {
    if i > 0 {
      RunInv(c, run, i - 1);
      assert Next(c, run[i - 1], run[i]);
      var e :| Enabled(c, run[i - 1], e) && run[i] == Apply(c, run[i - 1], e);
      StepInv(c, run[i - 1], e);
    }
  }

  /** The peer-timeout timer of an endpoint would fire now. */
  predicate TimesOut(now: nat, clock: Clock, timeout: nat) {
    clock.connected && now >= clock.lastHeard + timeout
  }

  /** No false timeout: while both stay connected, the timer of the host never fires
      if two delays, and one delay plus the device's interval, are shorter than its
      timeout; for the device one delay plus the host's interval is enough. */
  lemma NoFalseTimeout(c: Config, run: seq<Timed>, i: nat)
    requires IsRun(c, run) && i < |run|
    ensures 2 * c.delay < c.hostTimeout && c.delay + c.deviceTick < c.hostTimeout ==>
      !TimesOut(run[i].now, run[i].host, c.hostTimeout)
    ensures c.delay + c.hostTick < c.deviceTimeout ==>
      !TimesOut(run[i].now, run[i].device, c.deviceTimeout)
  {
    RunInv(c, run, i);
    var s := run[i];
    assert s.toHost != [] ==> s.now <= s.toHost[0] + c.delay;
    assert s.toDevice != [] ==> s.now <= s.toDevice[0] + c.delay;
  }
}
