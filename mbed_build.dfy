/** The shared coordinator on the Mbed adapter, along the path of a handle: the
    adapter's connection or sync event hands the coordinator a `handle_t`, the
    coordinator queues `triggerDisconnect` or `triggerDesync` with it for
    CONFIG_CONNECT_TIME later, and the task hands it back to the adapter's
    `disconnect` or `stopSync`. */
module MbedBuild {
  import opened Common
  import BP = BluetoothPlatform
  import G = MbedGap
  import M = MbedPlatform
  import C = Coordinator

  /** As written, the adapter hands over `slot`, the address of a local of the
      finished `onConnectionComplete`, and `disconnect` reads the handle
      through it: the timed disconnect names the connection just made iff that
      dead address still holds its handle. */
  lemma StaleHandleAsWritten(cfg: C.Config, t: C.Test, radio: G.Radio, m: M.Mbed, later: M.Mbed,
                             c: G.GapConnection, slot: Handle, mem: Handle -> nat)
    requires c.status == 0 && m.isScanner
    ensures var e := M.OnConnectionComplete(m, c, slot).events[|m.events|].connection;
      var t1 := C.OnConnection(cfg, t, e);
      var r := M.DisconnectAsWritten(radio, later, slot, mem).m.requests;
      t1.requests == t.requests + [C.CallIn(cfg.connectTimeMs, C.TriggerDisconnectTask(slot))]
      && C.TriggerDisconnect(cfg, t1, slot).requests[|t1.requests|] == C.Disconnect(slot)
      && r == later.requests + [G.Disconnect(mem(slot))]
      && (r[|later.requests|] == G.Disconnect(c.connectionHandle) <==> mem(slot) == c.connectionHandle)
  {
    var e := M.OnConnectionComplete(m, c, slot).events[|m.events|].connection;
    assert e.connectionHandle == slot && e.error == 0 && e.role == BP.Main;
    TaskHandsBack(cfg, C.OnConnection(cfg, t, e), slot);
  }

  /** The same for the timed desync, through the address of a local of the
      finished `onPeriodicAdvertisingSyncEstablished`. */
  lemma StaleSyncHandleAsWritten(cfg: C.Config, t: C.Test, radio: G.Radio, m: M.Mbed, later: M.Mbed,
                                 s: G.GapSync, slot: Handle, mem: Handle -> nat)
    ensures var e := M.OnPeriodicAdvertisingSyncEstablished(m, s, slot).events[|m.events|].sync;
      var t1 := C.OnPeriodicSync(cfg, t, e);
      var r := M.StopSyncAsWritten(radio, later, slot, mem).m.requests;
      t1.requests == t.requests + [C.CallIn(cfg.connectTimeMs, C.TriggerDesyncTask(slot))]
      && C.TriggerDesync(cfg, t1, slot).requests[|t1.requests|] == C.StopSync(slot)
      && r == later.requests + [G.TerminateSync(mem(slot))]
      && (r[|later.requests|] == G.TerminateSync(s.syncHandle) <==> mem(slot) == s.syncHandle)
  {
    var e := M.OnPeriodicAdvertisingSyncEstablished(m, s, slot).events[|m.events|].sync;
    assert e.syncHandle == slot;
    TaskHandsBack(cfg, C.OnPeriodicSync(cfg, t, e), slot);
  }

  /** A memory that shows it: once the callback's frame is reused, the slot
      holds another value, and the benchmark's timed disconnect and desync ask
      the stack to end a connection and a sync other than the ones it made. */
  lemma StaleHandleCounterexample(radio: G.Radio, later: M.Mbed, c: G.GapConnection, s: G.GapSync, slot: Handle)
    ensures var mem := (a: Handle) => c.connectionHandle + 1;
      M.DisconnectAsWritten(radio, later, slot, mem).m.requests[|later.requests|] != G.Disconnect(c.connectionHandle)
    ensures var mem := (a: Handle) => s.syncHandle + 1;
      M.StopSyncAsWritten(radio, later, slot, mem).m.requests[|later.requests|] != G.TerminateSync(s.syncHandle)
  {
  }

  /** Corrected: the adapter's `handle_t` carries the stack's handle itself
      (the hand-over of `MbedPlatformClass`), so the timed disconnect, whenever
      it runs and whatever the adapter has done meanwhile, asks the stack to end
      exactly the connection that was made. */
  lemma TimedDisconnectExact(cfg: C.Config, t: C.Test, radio: G.Radio, m: M.Mbed, later: M.Mbed,
                             c: G.GapConnection)
    requires c.status == 0 && m.isScanner
    ensures var e := M.OnConnectionComplete(m, c, c.connectionHandle).events[|m.events|].connection;
      var t1 := C.OnConnection(cfg, t, e);
      var h := e.connectionHandle;
      t1.requests == t.requests + [C.CallIn(cfg.connectTimeMs, C.TriggerDisconnectTask(h))]
      && C.TriggerDisconnect(cfg, t1, h).requests[|t1.requests|] == C.Disconnect(h)
      && M.Disconnect(radio, later, h).m.requests == later.requests + [G.Disconnect(c.connectionHandle)]
  {
    var e := M.OnConnectionComplete(m, c, c.connectionHandle).events[|m.events|].connection;
    assert e.connectionHandle == c.connectionHandle && e.error == 0 && e.role == BP.Main;
    TaskHandsBack(cfg, C.OnConnection(cfg, t, e), e.connectionHandle);
  }

  /** Corrected, for a sync: the timed desync, with or without a sync error,
      asks the stack to end exactly the sync that was reported. */
  lemma TimedDesyncExact(cfg: C.Config, t: C.Test, radio: G.Radio, m: M.Mbed, later: M.Mbed, s: G.GapSync)
    ensures var e := M.OnPeriodicAdvertisingSyncEstablished(m, s, s.syncHandle).events[|m.events|].sync;
      var t1 := C.OnPeriodicSync(cfg, t, e);
      var h := e.syncHandle;
      t1.requests == t.requests + [C.CallIn(cfg.connectTimeMs, C.TriggerDesyncTask(h))]
      && C.TriggerDesync(cfg, t1, h).requests[|t1.requests|] == C.StopSync(h)
      && M.StopSync(radio, later, h).m.requests == later.requests + [G.TerminateSync(s.syncHandle)]
  {
    var e := M.OnPeriodicAdvertisingSyncEstablished(m, s, s.syncHandle).events[|m.events|].sync;
    assert e.syncHandle == s.syncHandle;
    TaskHandsBack(cfg, C.OnPeriodicSync(cfg, t, e), e.syncHandle);
  }

  /** The queued task hands its handle back unchanged: its first platform call
      is the disconnect or the sync stop of that handle. */
  lemma TaskHandsBack(cfg: C.Config, t: C.Test, h: Handle)
    ensures C.TriggerDisconnect(cfg, t, h).requests[|t.requests|] == C.Disconnect(h)
    ensures C.TriggerDesync(cfg, t, h).requests[|t.requests|] == C.StopSync(h)
  {
    C.NextStateOneCall(cfg, C.Post(t, C.Disconnect(h)));
    C.NextStateOneCall(cfg, C.Post(t, C.StopSync(h)));
    assert C.Post(t, C.Disconnect(h)).requests[|t.requests|] == C.Disconnect(h);
  }
}
