/** The bounds on the timeouts are exact: for every configuration beyond them there is a
    run, with every packet at most one delay late, in which a timer fires although both
    sides are alive. */
module KeepAliveBounds {
  import opened KeepAlive

  /** The keep-alive timer of the runtime does not accept a period of zero. */
  ghost predicate Ticking(c: Config) {
    c.hostTick > 0 && c.deviceTick > 0
  }

  ghost predicate Reachable(c: Config, s: Timed) {
    exists run :: IsRun(c, run) && run[|run| - 1] == s
  }

  lemma Step(c: Config, s: Timed, e: Event) returns (t: Timed)
    requires Reachable(c, s) && Enabled(c, s, e)
    ensures Reachable(c, t) && t == Apply(c, s, e)
  {
    t := Apply(c, s, e);
    var run :| IsRun(c, run) && run[|run| - 1] == s;
    var longer := run + [t];
    assert Next(c, s, t);
    assert longer[|longer| - 1] == t && IsRun(c, longer);
  }

  // ---------------------------------------------------------------------------
  // Waiting for the host's next packet as long as possible.

  /** Both sides are connected, nothing is due, and nothing reaches the host before
      `end`; it last heard something at `heard`. */
  ghost predicate HostWaits(c: Config, s: Timed, heard: nat, end: nat) {
    && Reachable(c, s)
    && s.host.connected && s.device.connected && !s.host.pingDue && !s.device.pingDue
    && s.host.lastHeard == heard && s.now <= end
    && s.now <= s.host.nextTick && s.now <= s.device.nextTick
    && s.toDevice == []
    && (if s.toHost == [] then end <= s.device.nextTick + c.delay else end <= s.toHost[0] + c.delay)
  }

  /** The host ticks if it is time to, and the device hears that at once. */
  lemma HostDue(c: Config, s: Timed, heard: nat, end: nat) returns (t: Timed)
    requires Ticking(c) && HostWaits(c, s, heard, end)
    ensures HostWaits(c, t, heard, end) && t.now == s.now && t.now < t.host.nextTick
  {
    t := s;
    if s.now == s.host.nextTick {
      t := Step(c, t, HostTicks);
      t := Step(c, t, DeviceHears);
    }
  }

  /** The device ticks if it is time to, and the packet stays on its way. */
  lemma DeviceDue(c: Config, s: Timed, heard: nat, end: nat) returns (t: Timed)
    requires Ticking(c) && HostWaits(c, s, heard, end)
    ensures HostWaits(c, t, heard, end) && t.now == s.now && t.now < t.device.nextTick
    ensures t.host == s.host
  {
    t := s;
    if s.now == s.device.nextTick {
      t := Step(c, t, DeviceTicks);
    }
  }

  lemma {:induction false} HostWaitsLong(c: Config, s: Timed, heard: nat, end: nat) returns (t: Timed)
    requires Ticking(c) && HostWaits(c, s, heard, end)
    ensures HostWaits(c, t, heard, end) && t.now == end
    decreases end - s.now
  {
    if s.now == end {
      t := s;
    } else {
      var a := HostDue(c, s, heard, end);
      var b := DeviceDue(c, a, heard, end);
      var later := Step(c, b, TimePasses);
      t := HostWaitsLong(c, later, heard, end);
    }
  }

  // ---------------------------------------------------------------------------
  // Waiting for the device's next packet as long as possible.

  ghost predicate DeviceWaits(c: Config, s: Timed, heard: nat, end: nat) {
    && Reachable(c, s)
    && s.host.connected && s.device.connected && !s.host.pingDue && !s.device.pingDue
    && s.device.lastHeard == heard && s.now <= end
    && s.now <= s.host.nextTick && s.now <= s.device.nextTick
    && s.toHost == []
    && (if s.toDevice == [] then end <= s.host.nextTick + c.delay else end <= s.toDevice[0] + c.delay)
  }

  lemma TicksWhileDeviceWaits(c: Config, s: Timed, heard: nat, end: nat) returns (t: Timed)
    requires Ticking(c) && DeviceWaits(c, s, heard, end)
    ensures DeviceWaits(c, t, heard, end) && t.now == s.now && t.now < t.host.nextTick && t.now < t.device.nextTick
  {
    t := s;
    if t.now == t.device.nextTick {
      t := Step(c, t, DeviceTicks);
      t := Step(c, t, HostHears);
    }
    if t.now == t.host.nextTick {
      t := Step(c, t, HostTicks);
    }
  }

  lemma {:induction false} DeviceWaitsLong(c: Config, s: Timed, heard: nat, end: nat) returns (t: Timed)
    requires Ticking(c) && DeviceWaits(c, s, heard, end)
    ensures DeviceWaits(c, t, heard, end) && t.now == end
    decreases end - s.now
  {
    if s.now == end {
      t := s;
    } else {
      var ready := TicksWhileDeviceWaits(c, s, heard, end);
      var later := Step(c, ready, TimePasses);
      t := DeviceWaitsLong(c, later, heard, end);
    }
  }

  // ---------------------------------------------------------------------------
  // The handshake, with no delay and with the longest delay.

  lemma HostConnects(c: Config) returns (s: Timed)
    ensures Reachable(c, s)
    ensures s == Timed(0, Clock(true, false, c.hostTick, 0), Clock(false, false, 0, 0), [], [0, 0])
  {
    assert IsRun(c, [INIT]);
    s := Step(c, INIT, HostHears);
    s := Step(c, s, HostPings);
  }

  /** Everything of the handshake arrives at time zero. */
  lemma AllAtOnce(c: Config) returns (s: Timed)
    ensures Reachable(c, s)
    ensures s == Timed(0, Clock(true, false, c.hostTick, 0), Clock(true, false, c.deviceTick, 0), [], [])
  {
    s := HostConnects(c);
    s := Step(c, s, DeviceHears);
    s := Step(c, s, DeviceHears);
    s := Step(c, s, DevicePings);
    s := Step(c, s, HostHears);
  }

  /** The host's ControlHelloAck is under way. */
  ghost predicate AckUnderWay(c: Config, s: Timed) {
    && Reachable(c, s)
    && s.host.connected && !s.host.pingDue && s.host.lastHeard == 0 && !s.device.connected
    && s.now <= c.delay && s.now <= s.host.nextTick
    && s.toHost == [] && s.toDevice != [] && s.toDevice[0] == 0
  }

  lemma {:induction false} AckIsLate(c: Config, s: Timed) returns (t: Timed)
    requires Ticking(c) && AckUnderWay(c, s)
    ensures AckUnderWay(c, t) && t.now == c.delay
    decreases c.delay - s.now
  {
    if s.now == c.delay {
      t := s;
    } else {
      var ticked := s;
      if s.now == s.host.nextTick {
        ticked := Step(c, s, HostTicks);
      }
      var later := Step(c, ticked, TimePasses);
      t := AckIsLate(c, later);
    }
  }

  /** The device hears everything that is under way. */
  lemma {:induction false} DeviceCatchesUp(c: Config, s: Timed) returns (t: Timed)
    requires Reachable(c, s) && s.device.connected
    ensures Reachable(c, t) && t == s.(toDevice := [], device := t.device)
    ensures t.device == s.device.(lastHeard := t.device.lastHeard)
    decreases |s.toDevice|
  {
    if s.toDevice == [] {
      t := s;
    } else {
      var heard := Step(c, s, DeviceHears);
      t := DeviceCatchesUp(c, heard);
    }
  }

  /** The device's first ping leaves one delay after the host connected. */
  lemma LatePing(c: Config) returns (s: Timed)
    requires Ticking(c)
    ensures HostWaits(c, s, 0, 2 * c.delay)
  {
    var connected := HostConnects(c);
    var late := AckIsLate(c, connected);
    var both := Step(c, late, DeviceHears);
    var pinged := Step(c, both, DevicePings);
    s := DeviceCatchesUp(c, pinged);
    assert s.toHost == [c.delay];
  }

  // ---------------------------------------------------------------------------

  /** No run lets the timer fire. */
  ghost predicate HostSafe(c: Config) {
    forall s :: Reachable(c, s) ==> !TimesOut(s.now, s.host, c.hostTimeout)
  }

  ghost predicate DeviceSafe(c: Config) {
    forall s :: Reachable(c, s) ==> !TimesOut(s.now, s.device, c.deviceTimeout)
  }

  /** The host's timer never fires falsely if and only if two delays, and one delay plus
      the device's interval, are shorter than its timeout. */
  lemma HostSafeExactly(c: Config)
    requires Ticking(c)
    ensures HostSafe(c) <==> 2 * c.delay < c.hostTimeout && c.delay + c.deviceTick < c.hostTimeout
  {
    if 2 * c.delay < c.hostTimeout && c.delay + c.deviceTick < c.hostTimeout {
      forall s | Reachable(c, s)
        ensures !TimesOut(s.now, s.host, c.hostTimeout)
      {
        var run :| IsRun(c, run) && run[|run| - 1] == s;
        NoFalseTimeout(c, run, |run| - 1);
      }
    } else if c.delay + c.deviceTick < c.hostTimeout {
      var s := LatePing(c);
      var t := HostWaitsLong(c, s, 0, 2 * c.delay);
      assert TimesOut(t.now, t.host, c.hostTimeout);
    } else {
      var s := AllAtOnce(c);
      var t := HostWaitsLong(c, s, 0, c.delay + c.deviceTick);
      assert TimesOut(t.now, t.host, c.hostTimeout);
    }
  }

  /** The device's never does if and only if one delay plus the host's interval is. */
  lemma DeviceSafeExactly(c: Config)
    requires Ticking(c)
    ensures DeviceSafe(c) <==> c.delay + c.hostTick < c.deviceTimeout
  {
    if c.delay + c.hostTick < c.deviceTimeout {
      forall s | Reachable(c, s)
        ensures !TimesOut(s.now, s.device, c.deviceTimeout)
      {
        var run :| IsRun(c, run) && run[|run| - 1] == s;
        NoFalseTimeout(c, run, |run| - 1);
      }
    } else {
      var s := AllAtOnce(c);
      var t := DeviceWaitsLong(c, s, 0, c.delay + c.hostTick);
      assert TimesOut(t.now, t.device, c.deviceTimeout);
    }
  }
}
