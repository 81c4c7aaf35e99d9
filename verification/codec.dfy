/** The configuration codec: `save` turns a registry into a store with a
    GENERAL section followed by one section per device, and `load_devices`
    plus the GENERAL lookups in `main` read such a store back. */
module Codec {
  import opened Wrappers
  import opened Seqs
  import opened PyInt
  import opened ConfigStore
  import opened Registry

  const General := "GENERAL"
  const PlugPrefix := "plug_"

  /** Exceptions the reading side raises (Python's ValueError from `int()`). */
  datatype LoadError =
    | BadPlugIndex(section: string, key: string)
    | BadInteger(key: string, value: string)

  /** The key a plug is saved under: the prefix followed by `str(index)`. */
  function PlugKey(index: int): (k: string)
    ensures |k| > |PlugPrefix| && k[..|PlugPrefix|] == PlugPrefix
  {
    PlugPrefix + IntToString(index)
  }

  /** `re.match("plug_\d+", key)`: the match is anchored at the start only, so
      anything may follow the first digit. */
  predicate IsPlugKey(key: string) {
    |key| > |PlugPrefix| && key[..|PlugPrefix|] == PlugPrefix && IsDigit(key[|PlugPrefix|])
  }

  /** The text `int()` is applied to: the key after the prefix. */
  function IndexText(key: string): string
    requires IsPlugKey(key)
  {
    key[|PlugPrefix|..]
  }

  /** A plug key whose index text `int()` rejects, such as `plug_3x`. */
  predicate IsBadPlugKey(key: string) {
    IsPlugKey(key) && ParseInt(IndexText(key)).None?
  }

  /** A saved key is recognised exactly when the index is non-negative, and
      then reads back as that index. */
  lemma PlugKeyRoundTrip(index: int)
    ensures IsPlugKey(PlugKey(index)) <==> index >= 0
    ensures index >= 0 ==> ParseInt(IndexText(PlugKey(index))) == Some(index)
  {
    var s := IntToString(index);
    assert PlugKey(index)[..|PlugPrefix|] == PlugPrefix;
    assert PlugKey(index)[|PlugPrefix|..] == s;
    ParseIntToString(index);
  }

  lemma PlugKeyInjective(i: int, j: int)
    requires PlugKey(i) == PlugKey(j)
    ensures i == j
  {
    assert PlugKey(i)[|PlugPrefix|..] == IntToString(i);
    assert PlugKey(j)[|PlugPrefix|..] == IntToString(j);
    IntToStringInjective(i, j);
  }

  // ---------------------------------------------------------------------
  // Writing

  /** The options `save` sets in GENERAL, in order; the ports go through `str`. */
  function GeneralOptions(m: Master): seq<(string, string)> {
    [("user", m.user), ("password", m.password), ("pin", IntToString(m.pin)), ("pout", IntToString(m.pout))]
  }

  function PlugEntries(plugs: seq<Plug>): (r: seq<(string, string)>)
    ensures |r| == |plugs|
    ensures forall i :: 0 <= i < |plugs| ==> r[i] == (PlugKey(plugs[i].index), plugs[i].name)
  {
    if |plugs| == 0 then [] else [(PlugKey(plugs[0].index), plugs[0].name)] + PlugEntries(plugs[1..])
  }

  /** The options `save` sets in a device's section, in order: `name`, then one
      entry per plug in plug order. */
  function DeviceOptions(d: Device): seq<(string, string)> {
    [("name", d.name)] + PlugEntries(d.plugs)
  }

  /** A run of `set(section, key, value)` calls, in order. */
  function SetAll(st: Store, section: string, entries: seq<(string, string)>): (r: Result<Store, StoreError>)
    ensures section in Names(st) ==> r.Success? && Names(r.value) == Names(st)
    ensures section in Names(st) && WellFormed(st) ==> WellFormed(r.value)
    decreases |entries|
  {
    if |entries| == 0 then Success(st)
    else
      var st1 :- SetOption(st, section, entries[0].0, entries[0].1);
      SetOptionFrame(st, section, entries[0].0, entries[0].1);
      SetAll(st1, section, entries[1..])
  }

  /** `add_section(name)` followed by one `set` per entry. */
  function AddFilled(st: Store, name: string, entries: seq<(string, string)>): (r: Result<Store, StoreError>)
    ensures r.Failure? <==> name in Names(st)
    ensures r.Success? ==> Names(r.value) == Names(st) + [name]
    ensures r.Success? && WellFormed(st) ==> WellFormed(r.value)
  {
    match AddSection(st, name)
    case Failure(e) => Failure(e)
    case Success(st1) =>
      AddSectionFrame(st, name);
      SetAll(st1, name, entries)
  }

  /** The first part of `save`: `add_section(GENERAL)`, then `set` of user,
      password, pin and pout. */
  function SaveGeneral(m: Master): Result<Store, StoreError> {
    AddFilled([], General, GeneralOptions(m))
  }

  /** The device loop of `save`: one section per device, in device order. */
  function SaveDevices(st: Store, ds: seq<Device>): Result<Store, StoreError>
    decreases |ds|
  {
    if |ds| == 0 then Success(st)
    else
      match AddFilled(st, ds[0].address, DeviceOptions(ds[0]))
      case Failure(e) => Failure(e)
      case Success(st1) => SaveDevices(st1, ds[1..])
  }

  /** Each device adds one section, named by its address. */
  lemma {:induction false} SaveDevicesNames(st: Store, ds: seq<Device>)
    ensures SaveDevices(st, ds).Success? ==> Names(SaveDevices(st, ds).value) == Names(st) + Addresses(ds)
    decreases |ds|
  {
    if |ds| == 0 {
      assert Names(st) + Addresses(ds) == Names(st);
    } else {
      var r1 := AddFilled(st, ds[0].address, DeviceOptions(ds[0]));
      SaveDevicesStep(st, ds);
      if r1.Success? {
        SaveDevicesNames(r1.value, ds[1..]);
        AddressesStep(Names(st), ds);
      }
    }
  }

  /** Appending the first address and then the rest appends all addresses. */
  lemma AddressesStep(names: seq<string>, ds: seq<Device>)
    requires |ds| > 0
    ensures (names + [ds[0].address]) + Addresses(ds[1..]) == names + Addresses(ds)
  {
    assert Addresses(ds) == [ds[0].address] + Addresses(ds[1..]);
    AppendAssoc(names, [ds[0].address], Addresses(ds[1..]));
  }

  /** One turn of the device loop: add the section, then continue. */
  lemma SaveDevicesStep(st: Store, ds: seq<Device>)
    requires |ds| > 0
    ensures AddFilled(st, ds[0].address, DeviceOptions(ds[0])).Failure? ==> SaveDevices(st, ds).Failure?
    ensures AddFilled(st, ds[0].address, DeviceOptions(ds[0])).Success? ==>
      SaveDevices(st, ds) == SaveDevices(AddFilled(st, ds[0].address, DeviceOptions(ds[0])).value, ds[1..])
  {
  }

  /** Writing the device sections keeps the store well formed. */
  lemma {:induction false} SaveDevicesWellFormed(st: Store, ds: seq<Device>)
    requires WellFormed(st)
    ensures SaveDevices(st, ds).Success? ==> WellFormed(SaveDevices(st, ds).value)
    decreases |ds|
  {
    if |ds| > 0 {
      var r1 := AddFilled(st, ds[0].address, DeviceOptions(ds[0]));
      SaveDevicesStep(st, ds);
      if r1.Success? {
        SaveDevicesWellFormed(r1.value, ds[1..]);
      }
    }
  }

  /** `save`: the store written to the configuration file, or the exception
      ConfigParser raises while building it. A written store has GENERAL and
      then one section per device address, with no section or key twice. */
  function Save(m: Master): (r: Result<Store, StoreError>)
    ensures r.Success? ==> Names(r.value) == [General] + Addresses(m.devices)
    ensures r.Success? ==> WellFormed(r.value)
  {
    match SaveGeneral(m)
    case Failure(e) => Failure(e)
    case Success(st) =>
      SaveGeneralNames(m);
      var r := SaveDevices(st, m.devices);
      if r.Failure? then r
      else
        SaveDevicesNames(st, m.devices);
        SaveDevicesWellFormed(st, m.devices);
        r
  }

  lemma SaveGeneralNames(m: Master)
    ensures SaveGeneral(m).Success?
    ensures Names(SaveGeneral(m).value) == [General] && WellFormed(SaveGeneral(m).value)
  {
    assert Names([]) == [] && WellFormed([]);
  }

  // ---------------------------------------------------------------------
  // The layout `save` produces

  function DeviceSections(ds: seq<Device>): seq<Section> {
    if |ds| == 0 then [] else [Section(ds[0].address, DeviceOptions(ds[0]))] + DeviceSections(ds[1..])
  }

  /** GENERAL first, then one section per device in registry order. */
  function Layout(m: Master): Store {
    [Section(General, GeneralOptions(m))] + DeviceSections(m.devices)
  }

  /** What a registry must satisfy for `save` to write every plug: device
      addresses distinct and not GENERAL, plug indices distinct per device. */
  predicate ValidForSave(m: Master) {
    && Distinct(Addresses(m.devices))
    && General !in Addresses(m.devices)
    && forall i :: 0 <= i < |m.devices| ==> DistinctIndices(m.devices[i].plugs)
  }

  lemma {:induction false} SetAllAppends(st: Store, name: string, pre: seq<(string, string)>, entries: seq<(string, string)>)
    requires name !in Names(st)
    requires Distinct(Keys(pre + entries))
    ensures SetAll(st + [Section(name, pre)], name, entries) == Success(st + [Section(name, pre + entries)])
    decreases |entries|
  {
    if |entries| == 0 {
      assert pre + entries == pre;
    } else {
      var e, rest := entries[0], entries[1..];
      assert entries == [e] + rest;
      AppendAssoc(pre, [e], rest);
      KeysConcat(pre + [e], rest);
      KeysConcat(pre, [e]);
      assert Keys([e]) == [e.0];
      DistinctMiddle(Keys(pre), e.0, Keys(rest));
      SetOptionAppends(st, name, pre, e.0, e.1);
      SetAllAppends(st, name, pre + [e], rest);
    }
  }

  /** With a fresh section name and distinct keys, the section is written
      exactly as listed. */
  lemma AddFilledAppends(st: Store, name: string, entries: seq<(string, string)>)
    requires name !in Names(st)
    requires Distinct(Keys(entries))
    ensures AddFilled(st, name, entries) == Success(st + [Section(name, entries)])
  {
    assert [] + entries == entries;
    SetAllAppends(st, name, [], entries);
  }

  lemma PlugKeysDistinct(plugs: seq<Plug>)
    requires DistinctIndices(plugs)
    ensures Distinct(Keys(PlugEntries(plugs)))
  {
    var ks := Keys(PlugEntries(plugs));
    forall i, j | 0 <= i < j < |ks|
      ensures ks[i] != ks[j]
    {
      if ks[i] == ks[j] {
        PlugKeyInjective(plugs[i].index, plugs[j].index);
      }
    }
  }

  lemma NameIsNoPlugKey(plugs: seq<Plug>)
    ensures "name" !in Keys(PlugEntries(plugs))
  {
    var ks := Keys(PlugEntries(plugs));
    forall k | 0 <= k < |ks|
      ensures ks[k] != "name"
    {
      assert ks[k][0] == 'p';
    }
  }

  /** The keys `save` sets in a device section are distinct when the plug
      indices are: `name` is no plug key, and `str` is injective. */
  lemma DeviceOptionsDistinct(d: Device)
    requires DistinctIndices(d.plugs)
    ensures Distinct(Keys(DeviceOptions(d)))
  {
    var es := PlugEntries(d.plugs);
    KeysConcat([("name", d.name)], es);
    assert Keys([("name", d.name)]) == ["name"];
    PlugKeysDistinct(d.plugs);
    NameIsNoPlugKey(d.plugs);
    DistinctCons("name", Keys(es));
  }

  /** `save` fails (DuplicateSectionError) exactly when a device address
      repeats an earlier section name. */
  lemma {:induction false} SaveDevicesSucceeds(st: Store, ds: seq<Device>)
    requires Distinct(Names(st))
    ensures SaveDevices(st, ds).Success? <==> Distinct(Names(st) + Addresses(ds))
    decreases |ds|
  {
    if |ds| > 0 {
      var a := ds[0].address;
      var xs := Names(st) + Addresses(ds);
      if a in Names(st) {
        var j :| 0 <= j < |Names(st)| && Names(st)[j] == a;
        assert xs[j] == xs[|st|];
      } else {
        assert xs == (Names(st) + [a]) + Addresses(ds[1..]);
        var st1 := AddFilled(st, a, DeviceOptions(ds[0])).value;
        SaveDevicesSucceeds(st1, ds[1..]);
      }
    }
  }

  lemma {:induction false} SaveDevicesLayout(st: Store, ds: seq<Device>)
    requires Distinct(Names(st) + Addresses(ds))
    requires forall i :: 0 <= i < |ds| ==> DistinctIndices(ds[i].plugs)
    ensures SaveDevices(st, ds) == Success(st + DeviceSections(ds))
    decreases |ds|
  {
    if |ds| == 0 {
      assert st + DeviceSections(ds) == st;
    } else {
      var d := ds[0];
      var xs := Names(st) + Addresses(ds);
      assert xs == Names(st) + [d.address] + Addresses(ds[1..]);
      DistinctMiddle(Names(st), d.address, Addresses(ds[1..]));
      DeviceOptionsDistinct(d);
      AddFilledAppends(st, d.address, DeviceOptions(d));
      var st1 := st + [Section(d.address, DeviceOptions(d))];
      assert SaveDevices(st, ds) == SaveDevices(st1, ds[1..]);
      assert Names(st1) == Names(st) + [d.address];
      assert Names(st1) + Addresses(ds[1..]) == xs;
      assert forall i :: 0 <= i < |ds[1..]| ==> ds[1..][i] == ds[i + 1];
      SaveDevicesLayout(st1, ds[1..]);
      var sec := Section(d.address, DeviceOptions(d));
      assert DeviceSections(ds) == [sec] + DeviceSections(ds[1..]);
      AppendAssoc(st, [sec], DeviceSections(ds[1..]));
    }
  }

  /** The store holding only GENERAL, which SaveGeneral always produces. */
  lemma SaveGeneralLayout(m: Master)
    ensures SaveGeneral(m) == Success([Section(General, GeneralOptions(m))])
    ensures Names([Section(General, GeneralOptions(m))]) == [General]
  {
    var g := GeneralOptions(m);
    assert Names([]) == [];
    assert Keys(g) == ["user", "password", "pin", "pout"];
    AddFilledAppends([], General, g);
    assert [] + [Section(General, g)] == [Section(General, g)];
  }

  /** `save` emits GENERAL (user, password, pin, pout), then one section per
      device in registry order holding `name` and one `plug_<index>` entry
      per plug in plug order. */
  lemma SaveLayout(m: Master)
    requires ValidForSave(m)
    ensures Save(m) == Success(Layout(m))
  {
    SaveGeneralLayout(m);
    DistinctCons(General, Addresses(m.devices));
    SaveDevicesLayout([Section(General, GeneralOptions(m))], m.devices);
  }

  /** `save` raises DuplicateSectionError exactly when two devices share an
      address or a device's address is GENERAL. */
  lemma SaveFailsOnCollision(m: Master)
    ensures Save(m).Failure? <==> !Distinct(Addresses(m.devices)) || General in Addresses(m.devices)
  {
    SaveGeneralLayout(m);
    DistinctCons(General, Addresses(m.devices));
    SaveDevicesSucceeds([Section(General, GeneralOptions(m))], m.devices);
  }

  // ---------------------------------------------------------------------
  // Reading

  /** A plug key whose index text `int()` rejects, somewhere in a section. */
  predicate HasBadPlugKey(opts: seq<(string, string)>) {
    exists j :: 0 <= j < |opts| && IsBadPlugKey(opts[j].0)
  }

  /** The options whose key passes `re.match("plug_\d+", key)`, in order. */
  function PlugOptions(opts: seq<(string, string)>): (r: seq<(string, string)>)
    ensures forall k :: 0 <= k < |r| ==> IsPlugKey(r[k].0)
  {
    if |opts| == 0 then []
    else if IsPlugKey(opts[0].0) then [opts[0]] + PlugOptions(opts[1..])
    else PlugOptions(opts[1..])
  }

  /** The option loop of `load_devices`: the (index, name) pairs of one section, in
      option order. Other keys are skipped, and a plug key whose index `int()`
      rejects aborts the load. */
  function ParsePlugs(section: string, opts: seq<(string, string)>): (r: Result<seq<(int, string)>, LoadError>)
    ensures r.Failure? ==> r.error.BadPlugIndex? && r.error.section == section
    ensures r.Success? ==> |r.value| <= |opts|
  {
    if |opts| == 0 then Success([])
    else if !IsPlugKey(opts[0].0) then ParsePlugs(section, opts[1..])
    else match ParseInt(IndexText(opts[0].0))
      case None => Failure(BadPlugIndex(section, opts[0].0))
      case Some(index) =>
        var rest :- ParsePlugs(section, opts[1..]);
        Success([(index, opts[0].1)] + rest)
  }

  lemma HasBadPlugKeyCons(opts: seq<(string, string)>)
    requires |opts| > 0
    ensures HasBadPlugKey(opts) <==> IsBadPlugKey(opts[0].0) || HasBadPlugKey(opts[1..])
  {
    if HasBadPlugKey(opts[1..]) {
      var j :| 0 <= j < |opts[1..]| && IsBadPlugKey(opts[1..][j].0);
      assert opts[j + 1] == opts[1..][j];
    }
    if HasBadPlugKey(opts) && !IsBadPlugKey(opts[0].0) {
      var j :| 0 <= j < |opts| && IsBadPlugKey(opts[j].0);
      assert opts[1..][j - 1] == opts[j];
    }
  }

  /** Loading a section aborts exactly when one of its keys passes the
      prefix match but not `int()`, such as `plug_3x`. */
  lemma {:induction false} ParsePlugsFails(section: string, opts: seq<(string, string)>)
    ensures ParsePlugs(section, opts).Failure? <==> HasBadPlugKey(opts)
    decreases |opts|
  {
    if |opts| > 0 {
      HasBadPlugKeyCons(opts);
      ParsePlugsFails(section, opts[1..]);
    }
  }

  /** `pairs` is what the loop over `plugOpts` appends: one (index, name)
      pair per plug option, in order, the index being what `int()` reads
      after the prefix (never negative) and the name the option's value. */
  predicate ReadsAs(pairs: seq<(int, string)>, plugOpts: seq<(string, string)>) {
    && |pairs| == |plugOpts|
    && forall k :: 0 <= k < |plugOpts| ==>
      && IsPlugKey(plugOpts[k].0)
      && pairs[k].0 >= 0
      && ParseInt(IndexText(plugOpts[k].0)) == Some(pairs[k].0)
      && pairs[k].1 == plugOpts[k].1
  }

  lemma ReadsAsCons(p: (int, string), pairs: seq<(int, string)>, o: (string, string), plugOpts: seq<(string, string)>)
    requires ReadsAs(pairs, plugOpts)
    requires IsPlugKey(o.0) && p.0 >= 0 && ParseInt(IndexText(o.0)) == Some(p.0) && p.1 == o.1
    ensures ReadsAs([p] + pairs, [o] + plugOpts)
  {
    var ps, os := [p] + pairs, [o] + plugOpts;
    forall k | 0 <= k < |os|
      ensures IsPlugKey(os[k].0) && ps[k].0 >= 0 && ParseInt(IndexText(os[k].0)) == Some(ps[k].0) && ps[k].1 == os[k].1
    {
      if k > 0 {
        assert os[k] == plugOpts[k - 1] && ps[k] == pairs[k - 1];
      }
    }
  }

  /** A section loads into one (index, name) pair per plug key, in option
      order, with the index `int()` reads after the prefix (never negative)
      and the option's value as the name. */
  lemma {:induction false} ParsePlugsReadsPlugOptions(section: string, opts: seq<(string, string)>)
    requires ParsePlugs(section, opts).Success?
    ensures ReadsAs(ParsePlugs(section, opts).value, PlugOptions(opts))
    decreases |opts|
  {
    if |opts| > 0 {
      ParsePlugsReadsPlugOptions(section, opts[1..]);
      if IsPlugKey(opts[0].0) {
        ParsePlugsHead(section, opts);
        ReadsAsCons((ParseInt(IndexText(opts[0].0)).value, opts[0].1), ParsePlugs(section, opts[1..]).value,
                    opts[0], PlugOptions(opts[1..]));
      }
    }
  }

  /** One step of the loop over a section's options, at a plug key. */
  lemma ParsePlugsHead(section: string, opts: seq<(string, string)>)
    requires |opts| > 0 && IsPlugKey(opts[0].0)
    requires ParsePlugs(section, opts).Success?
    ensures ParsePlugs(section, opts[1..]).Success?
    ensures ParseInt(IndexText(opts[0].0)).Some? && ParseInt(IndexText(opts[0].0)).value >= 0
    ensures ParsePlugs(section, opts).value ==
      [(ParseInt(IndexText(opts[0].0)).value, opts[0].1)] + ParsePlugs(section, opts[1..]).value
    ensures PlugOptions(opts) == [opts[0]] + PlugOptions(opts[1..])
  {
    assert IsDigit(IndexText(opts[0].0)[0]);
  }

  /** The sections `load_devices` turns into devices: not GENERAL, and with a
      `name` option. */
  predicate IsDeviceSection(sec: Section) {
    sec.name != General && "name" in Keys(sec.options)
  }

  function NamedDeviceSections(st: Store): seq<Section> {
    if |st| == 0 then []
    else if IsDeviceSection(st[0]) then [st[0]] + NamedDeviceSections(st[1..])
    else NamedDeviceSections(st[1..])
  }

  /** `load_devices`: the create_device calls, in section order, or the
      ValueError of the first bad plug key. */
  function LoadDevices(st: Store): (r: Result<seq<DeviceDef>, LoadError>)
    ensures r.Failure? ==> r.error.BadPlugIndex?
    ensures r.Success? ==> |r.value| <= |st|
  {
    if |st| == 0 then Success([])
    else if st[0].name == General then LoadDevices(st[1..])
    else match Lookup(st[0].options, "name")
      case None => LoadDevices(st[1..])
      case Some(name) =>
        var plugs :- ParsePlugs(st[0].name, st[0].options);
        var rest :- LoadDevices(st[1..]);
        Success([DeviceDef(st[0].name, name, plugs)] + rest)
  }

  lemma LoadDevicesCons(sec: Section, rest: Store, name: string, plugs: seq<(int, string)>, defs: seq<DeviceDef>)
    requires sec.name != General && Lookup(sec.options, "name") == Some(name)
    requires ParsePlugs(sec.name, sec.options) == Success(plugs)
    requires LoadDevices(rest) == Success(defs)
    ensures LoadDevices([sec] + rest) == Success([DeviceDef(sec.name, name, plugs)] + defs)
  {
    assert ([sec] + rest)[0] == sec && ([sec] + rest)[1..] == rest;
  }

  predicate HasBadDeviceSection(st: Store) {
    exists i :: 0 <= i < |st| && IsDeviceSection(st[i]) && HasBadPlugKey(st[i].options)
  }

  lemma HasBadDeviceSectionCons(st: Store)
    requires |st| > 0
    ensures HasBadDeviceSection(st) <==>
      (IsDeviceSection(st[0]) && HasBadPlugKey(st[0].options)) || HasBadDeviceSection(st[1..])
  {
    if HasBadDeviceSection(st[1..]) {
      var i :| 0 <= i < |st[1..]| && IsDeviceSection(st[1..][i]) && HasBadPlugKey(st[1..][i].options);
      assert st[i + 1] == st[1..][i];
    }
    if HasBadDeviceSection(st) && !(IsDeviceSection(st[0]) && HasBadPlugKey(st[0].options)) {
      var i :| 0 <= i < |st| && IsDeviceSection(st[i]) && HasBadPlugKey(st[i].options);
      assert st[1..][i - 1] == st[i];
    }
  }

  /** The load aborts exactly when some device section holds a bad plug key;
      GENERAL and sections without a name are never inspected. */
  lemma {:induction false} LoadDevicesFails(st: Store)
    ensures LoadDevices(st).Failure? <==> HasBadDeviceSection(st)
    decreases |st|
  {
    if |st| > 0 {
      LoadDevicesFails(st[1..]);
      ParsePlugsFails(st[0].name, st[0].options);
      HasBadDeviceSectionCons(st);
    }
  }

  /** Every device section, and no other, yields exactly one create_device
      call, in section order, with the section name as address, the `name`
      option as name and the section's plug pairs. */
  lemma {:induction false} LoadDevicesCalls(st: Store)
    requires LoadDevices(st).Success?
    ensures |LoadDevices(st).value| == |NamedDeviceSections(st)|
    ensures forall k :: 0 <= k < |NamedDeviceSections(st)| ==>
      && LoadDevices(st).value[k].address == NamedDeviceSections(st)[k].name != General
      && Lookup(NamedDeviceSections(st)[k].options, "name") == Some(LoadDevices(st).value[k].name)
      && ParsePlugs(NamedDeviceSections(st)[k].name, NamedDeviceSections(st)[k].options) == Success(LoadDevices(st).value[k].plugs)
    decreases |st|
  {
    if |st| > 0 {
      LoadDevicesCalls(st[1..]);
      if IsDeviceSection(st[0]) {
        var name := Lookup(st[0].options, "name").value;
        var plugs := ParsePlugs(st[0].name, st[0].options).value;
        assert LoadDevices(st).value == [DeviceDef(st[0].name, name, plugs)] + LoadDevices(st[1..]).value;
        assert NamedDeviceSections(st) == [st[0]] + NamedDeviceSections(st[1..]);
      }
    }
  }

  /** `getint(GENERAL, key, fallback=...)`. */
  function GetInt(st: Store, key: string, fallback: int): (r: Result<int, LoadError>)
    ensures r.Failure? <==> Get(st, General, key).Some? && ParseInt(Get(st, General, key).value).None?
    ensures r.Success? ==>
      r.value == (if Get(st, General, key).Some? then ParseInt(Get(st, General, key).value).value else fallback)
  {
    match Get(st, General, key)
    case None => Success(fallback)
    case Some(v) =>
      match ParseInt(v)
      case None => Failure(BadInteger(key, v))
      case Some(n) => Success(n)
  }

  /** The defaults `main` reads from the GENERAL section: each option present
      is used and each absent one falls back to admin, anel, 75 or 77. The
      `getint` calls come first and raise ValueError on a value that is not
      an integer. */
  function ReadSettings(st: Store): (r: Result<Settings, LoadError>)
    ensures r.Failure? <==>
      || (Get(st, General, "pin").Some? && ParseInt(Get(st, General, "pin").value).None?)
      || (Get(st, General, "pout").Some? && ParseInt(Get(st, General, "pout").value).None?)
    ensures r.Success? ==>
      && r.value.user == (if Get(st, General, "user").Some? then Get(st, General, "user").value else "admin")
      && r.value.password == (if Get(st, General, "password").Some? then Get(st, General, "password").value else "anel")
      && r.value.pin == (if Get(st, General, "pin").Some? then ParseInt(Get(st, General, "pin").value).value else 75)
      && r.value.pout == (if Get(st, General, "pout").Some? then ParseInt(Get(st, General, "pout").value).value else 77)
  {
    var pin :- GetInt(st, "pin", 75);
    var pout :- GetInt(st, "pout", 77);
    Success(Settings(Get(st, General, "user").GetOr("admin"), Get(st, General, "password").GetOr("anel"), pin, pout))
  }

  // ---------------------------------------------------------------------
  // Round trip

  /** The (index, name) pairs load recovers from a device's plugs: a negative
      index is saved as `plug_-<n>`, which the prefix match rejects. */
  function PlugDefs(plugs: seq<Plug>): seq<(int, string)> {
    if |plugs| == 0 then []
    else if plugs[0].index >= 0 then [(plugs[0].index, plugs[0].name)] + PlugDefs(plugs[1..])
    else PlugDefs(plugs[1..])
  }

  function DefOf(d: Device): DeviceDef {
    DeviceDef(d.address, d.name, PlugDefs(d.plugs))
  }

  function Defs(ds: seq<Device>): seq<DeviceDef> {
    if |ds| == 0 then [] else [DefOf(ds[0])] + Defs(ds[1..])
  }

  lemma {:induction false} ParsePlugEntries(section: string, plugs: seq<Plug>)
    ensures ParsePlugs(section, PlugEntries(plugs)) == Success(PlugDefs(plugs))
    decreases |plugs|
  {
    if |plugs| > 0 {
      var es := PlugEntries(plugs);
      assert es[1..] == PlugEntries(plugs[1..]);
      PlugKeyRoundTrip(plugs[0].index);
      ParsePlugEntries(section, plugs[1..]);
    }
  }

  lemma {:induction false} LoadDeviceSections(ds: seq<Device>)
    requires General !in Addresses(ds)
    ensures LoadDevices(DeviceSections(ds)) == Success(Defs(ds))
    decreases |ds|
  {
    if |ds| > 0 {
      var d := ds[0];
      var opts := DeviceOptions(d);
      assert Addresses(ds)[0] == d.address;
      assert Addresses(ds[1..]) == Addresses(ds)[1..];
      assert opts[1..] == PlugEntries(d.plugs);
      assert Lookup(opts, "name") == Some(d.name);
      ParsePlugEntries(d.address, d.plugs);
      assert ParsePlugs(d.address, opts) == ParsePlugs(d.address, opts[1..]);
      LoadDeviceSections(ds[1..]);
      assert DeviceSections(ds)[1..] == DeviceSections(ds[1..]);
    }
  }

  /** GENERAL is the first section of the layout, so `get` reads its options. */
  lemma GetGeneralLayout(m: Master, key: string)
    ensures Get(Layout(m), General, key) == Lookup(GeneralOptions(m), key)
  {
    var st := Layout(m);
    assert Names(st)[0] == General;
    IndexOfFirst(Names(st), General, 0);
    assert st[0].options == GeneralOptions(m);
  }

  lemma GeneralCredentials(m: Master)
    ensures Lookup(GeneralOptions(m), "user") == Some(m.user)
    ensures Lookup(GeneralOptions(m), "password") == Some(m.password)
  {
    var g := GeneralOptions(m);
    assert g[1..][0] == ("password", m.password);
  }

  lemma GeneralPorts(m: Master)
    ensures Lookup(GeneralOptions(m), "pin") == Some(IntToString(m.pin))
    ensures Lookup(GeneralOptions(m), "pout") == Some(IntToString(m.pout))
  {
    var g := GeneralOptions(m);
    var tail := [("pin", IntToString(m.pin)), ("pout", IntToString(m.pout))];
    assert g[2..] == tail;
    assert g[1..][1..] == tail;
    assert Lookup(g, "pin") == Lookup(tail, "pin");
    assert Lookup(g, "pout") == Lookup(tail, "pout");
    assert tail[1..] == [("pout", IntToString(m.pout))];
    assert Lookup(tail, "pout") == Lookup(tail[1..], "pout");
  }

  lemma ReadSettingsLayout(m: Master)
    ensures ReadSettings(Layout(m)) == Success(SettingsOf(m))
  {
    GetGeneralLayout(m, "user");
    GetGeneralLayout(m, "password");
    GetGeneralLayout(m, "pin");
    GetGeneralLayout(m, "pout");
    GeneralCredentials(m);
    GeneralPorts(m);
    ParseIntToString(m.pin);
    ParseIntToString(m.pout);
  }

  /** `load_devices(save(m))` issues one create_device call per device, in
      registry order, with its address, name and (index, name) pairs in plug
      order (negative indices dropped), and GENERAL reads back the master's
      credentials and ports. */
  lemma RoundTrip(m: Master)
    requires ValidForSave(m)
    ensures Save(m).Success?
    ensures LoadDevices(Save(m).value) == Success(Defs(m.devices))
    ensures ReadSettings(Save(m).value) == Success(SettingsOf(m))
  {
    SaveLayout(m);
    LoadDeviceSections(m.devices);
    ReadSettingsLayout(m);
  }

  /** With non-negative indices nothing is dropped: every plug comes back as
      its own (index, name) pair, in order. */
  lemma {:induction false} PlugDefsKeepAll(plugs: seq<Plug>)
    requires forall i :: 0 <= i < |plugs| ==> plugs[i].index >= 0
    ensures |PlugDefs(plugs)| == |plugs|
    ensures forall i :: 0 <= i < |plugs| ==> PlugDefs(plugs)[i] == (plugs[i].index, plugs[i].name)
    decreases |plugs|
  {
    if |plugs| > 0 {
      PlugDefsKeepAll(plugs[1..]);
    }
  }

  function DefPlugCount(defs: seq<DeviceDef>): nat {
    if |defs| == 0 then 0 else |defs[0].plugs| + DefPlugCount(defs[1..])
  }

  predicate NonNegativeIndices(m: Master) {
    forall i, j :: 0 <= i < |m.devices| && 0 <= j < |m.devices[i].plugs| ==> m.devices[i].plugs[j].index >= 0
  }

  lemma {:induction false} DefsCounts(ds: seq<Device>)
    requires forall i, j :: 0 <= i < |ds| && 0 <= j < |ds[i].plugs| ==> ds[i].plugs[j].index >= 0
    ensures |Defs(ds)| == |ds|
    ensures DefPlugCount(Defs(ds)) == TotalPlugs(ds)
    decreases |ds|
  {
    if |ds| > 0 {
      PlugDefsKeepAll(ds[0].plugs);
      TotalPlugsCons(ds);
      DefsCounts(ds[1..]);
    }
  }

  /** The counts `save` reports are exactly what the written configuration
      gives back: as many create_device calls as devices, and as many
      (index, name) pairs as plugs. */
  lemma SavedCountsMatchLoad(m: Master)
    requires ValidForSave(m) && NonNegativeIndices(m)
    ensures Save(m).Success? && LoadDevices(Save(m).value).Success?
    ensures |LoadDevices(Save(m).value).value| == |m.devices|
    ensures DefPlugCount(LoadDevices(Save(m).value).value) == TotalPlugs(m.devices)
  {
    RoundTrip(m);
    DefsCounts(m.devices);
  }

  /** `int()` accepts underscores between digits: `plug_1_0` is index 10. */
  lemma UnderscoredPlugKey()
    ensures IsPlugKey("plug_1_0") && ParseInt(IndexText("plug_1_0")) == Some(10)
  {
    assert "plug_1_0"[..5] == PlugPrefix;
    assert IndexText("plug_1_0") == "1_0";
    UnderscoredIndex();
  }

  lemma UnderscoredIndex()
    ensures ParseInt("1_0") == Some(10)
  {
    UnderscoredGroups();
    ParseIntDigitGroups("1_0");
    UnderscoreDropped();
    TenValue();
  }

  lemma UnderscoredGroups()
    ensures IsDigitGroups("1_0")
  {
    var t := "1_0";
    assert t[0] == '1' && t[1] == '_' && t[2] == '0';
  }

  lemma UnderscoreDropped()
    ensures DropUnderscores("1_0") == "10"
  {
    var t := "1_0";
    assert t[1..] == "_0" && t[1..][1..] == "0" && "0"[1..] == "";
    assert DropUnderscores("0") == "0";
    assert DropUnderscores("_0") == "0";
  }

  lemma TenValue()
    ensures DigitsValue("10") == 10
  {
    assert "10"[..1] == "1" && "1"[..0] == "";
    assert DigitsValue("1") == 1;
  }

  /** The prefix match accepts any text after the first digit, and `int()`
      then rejects `plug_3x`, aborting the load. */
  lemma TrailingJunkPlugKey()
    ensures IsBadPlugKey("plug_3x")
  {
    assert "plug_3x"[..5] == PlugPrefix;
    var t := IndexText("plug_3x");
    assert t == "3x";
    assert Strip(t) == t;
    assert !IsDigitGroups(t);
  }
}
