/** The in-memory registry: a PlugMaster owning devices, each owning plugs,
    and the summary `print_master` reports about it. */
module Registry {
  import opened Wrappers
  import opened Seqs

  /** An outlet. `state` is the integer tri-state the library reports:
      negative means unknown, zero off, positive on. */
  datatype Plug = Plug(index: int, name: string, state: int)

  datatype Device = Device(address: string, name: string, plugs: seq<Plug>)

  /** Credentials, the inbound/outbound port pair and the devices, in order. */
  datatype Master = Master(pin: int, pout: int, user: string, password: string, devices: seq<Device>)

  /** The credential and port defaults a configuration yields. */
  datatype Settings = Settings(user: string, password: string, pin: int, pout: int)

  /** The arguments of one `create_device(address, name, [(index, name), ...])` call. */
  datatype DeviceDef = DeviceDef(address: string, name: string, plugs: seq<(int, string)>)

  function Addresses(ds: seq<Device>): seq<string> {
    seq(|ds|, i requires 0 <= i < |ds| => ds[i].address)
  }

  predicate DistinctIndices(plugs: seq<Plug>) {
    forall i, j :: 0 <= i < j < |plugs| ==> plugs[i].index != plugs[j].index
  }

  /** The settings a master was constructed with. */
  function SettingsOf(m: Master): Settings {
    Settings(m.user, m.password, m.pin, m.pout)
  }

  /** How `print_master` renders a plug's state: nothing when unknown,
      otherwise on or off by the truth value of the state. */
  function StateShown(state: int): (r: Option<bool>)
    ensures r.None? <==> state < 0
    ensures r == Some(true) <==> state > 0
    ensures r == Some(false) <==> state == 0
  {
    if state >= 0 then Some(state != 0) else None
  }

  /** Number of plugs over all devices. */
  function TotalPlugs(ds: seq<Device>): nat {
    if |ds| == 0 then 0 else TotalPlugs(ds[..|ds| - 1]) + |ds[|ds| - 1].plugs|
  }

  lemma {:induction false} TotalPlugsCons(ds: seq<Device>)
    requires |ds| > 0
    ensures TotalPlugs(ds) == |ds[0].plugs| + TotalPlugs(ds[1..])
    decreases |ds|
  {
    if |ds| > 1 {
      var init := ds[..|ds| - 1];
      assert init[1..] == ds[1..][..|ds[1..]| - 1];
      TotalPlugsCons(init);
    }
  }

  /** The counts `print_master` returns: devices, and plugs summed over devices. */
  method Summary(m: Master) returns (deviceCount: nat, plugCount: nat)
    ensures deviceCount == |m.devices|
    ensures plugCount == TotalPlugs(m.devices)
  {
    deviceCount := |m.devices|;
    plugCount := 0;
    var i := 0;
    while i < |m.devices|
      invariant i <= |m.devices|
      invariant plugCount == TotalPlugs(m.devices[..i])
    {
      assert m.devices[..i + 1][..i] == m.devices[..i];
      plugCount := plugCount + |m.devices[i].plugs|;
      i := i + 1;
    }
    assert m.devices[..i] == m.devices;
  }

  /** The closing line of `save`: the no-devices text exactly when no device
      was counted, otherwise both counts. */
  datatype Report = NoDevices | Counted(devices: nat, plugs: nat)

  function SaveReport(deviceCount: nat, plugCount: nat): (r: Report)
    ensures r.NoDevices? <==> deviceCount == 0
    ensures r.Counted? ==> r.devices == deviceCount && r.plugs == plugCount
  {
    if deviceCount != 0 then Counted(deviceCount, plugCount) else NoDevices
  }
}
