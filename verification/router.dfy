/** The command-line front end of `main.py`: the command table, the
    argument-count gates and match policy of `switch` and `reset`, the `save`
    and `show` summaries, and what `main` decides before dispatching. */
module Router {
  import opened Wrappers
  import opened ConfigStore
  import opened Registry
  import Codec

  // ---------------------------------------------------------------------
  // Command table

  datatype Command = On | Off | Save | Show | Reset

  function CommandName(c: Command): string {
    match c
    case On => "on"
    case Off => "off"
    case Save => "save"
    case Show => "show"
    case Reset => "reset"
  }

  /** `command in commands`: a name is a command exactly when it is one of the
      table's keys. */
  function CommandOf(name: string): (r: Option<Command>)
    ensures r.Some? ==> CommandName(r.value) == name
    ensures r.None? <==> forall c :: CommandName(c) != name
  {
    if name == "on" then Some(On)
    else if name == "off" then Some(Off)
    else if name == "save" then Some(Save)
    else if name == "show" then Some(Show)
    else if name == "reset" then Some(Reset)
    else None
  }

  // ---------------------------------------------------------------------
  // Collaborators and outcomes

  /** The searches of PlugMaster and Device, whose matching rule is not part
      of this model: `search_plug` over all devices, `search_device`, and a
      device's own `search_plug`. */
  datatype Searches<!D, P> = Searches(
    searchPlug: string -> set<P>,
    searchDevice: string -> set<D>,
    devicePlugs: (D, string) -> set<P>)

  /** What one command does. `Exit` is a handler returning a code with nothing
      done; the other variants are a handler returning None (exit status 0),
      except `Crashed`, an exception escaping `main`. */
  datatype Outcome<D, P> =
    | Exit(code: int)
    | Switched(plugs: set<P>, on: bool, warned: bool)
    | PowerCycled(devices: set<D>, warned: bool)
    | Saved(store: Store, report: Report)
    | Shown(deviceCount: nat, plugCount: nat)
    | Crashed(error: StoreError)

  /** The status `sys.exit` turns the outcome into. */
  function ExitCode<D, P>(o: Outcome<D, P>): int {
    match o
    case Exit(code) => code
    case Crashed(_) => 1
    case _ => 0
  }

  /** The match policy shared by `switch` and `reset`. */
  datatype Resolution<T> = NoMatch | Act(targets: set<T>, warned: bool)

  /** No match stops the command; otherwise every match is acted on, with a
      warning exactly when there is more than one. */
  function Resolve<T>(matches: set<T>): (r: Resolution<T>)
    ensures r.NoMatch? <==> matches == {}
    ensures r.Act? ==> r.targets == matches && (r.warned <==> |matches| > 1)
  {
    if matches == {} then NoMatch else Act(matches, |matches| > 1)
  }

  // ---------------------------------------------------------------------
  // switch

  /** The union, over the given devices, of each device's own plug search. */
  ghost function PlugsOnDevices<D, P>(s: Searches<D, P>, devices: set<D>, pattern: string): set<P> {
    set d, p | d in devices && p in s.devicePlugs(d, pattern) :: p
  }

  /** The plugs `switch` resolves its arguments to: a plug pattern alone, or a
      device pattern followed by a plug pattern. */
  ghost function PlugMatches<D, P>(s: Searches<D, P>, args: seq<string>): set<P>
    requires 1 <= |args| <= 2
  {
    if |args| == 1 then s.searchPlug(args[0])
    else PlugsOnDevices(s, s.searchDevice(args[0]), args[1])
  }

  /** What `switch` promises: a wrong argument count or no match exits with 1
      and switches nothing; otherwise every match is switched, with a warning
      exactly when there are several. */
  ghost predicate SwitchSpec<D, P>(s: Searches<D, P>, args: seq<string>, on: bool, o: Outcome<D, P>) {
    if |args| == 0 || |args| > 2 then o == Exit(1)
    else
      var m := PlugMatches(s, args);
      if m == {} then o == Exit(1) else o == Switched(m, on, |m| > 1)
  }

  /** The two-argument branch of `switch`: the plug set updated device by
      device with each matched device's own plug search. */
  method CollectPlugs<D, P>(s: Searches<D, P>, devices: set<D>, pattern: string) returns (plugs: set<P>)
    ensures plugs == PlugsOnDevices(s, devices, pattern)
  {
    plugs := {};
    var todo := devices;
    while todo != {}
      invariant todo <= devices
      invariant plugs == PlugsOnDevices(s, devices - todo, pattern)
      decreases todo
    {
      var d :| d in todo;
      assert devices - (todo - {d}) == (devices - todo) + {d};
      plugs := plugs + s.devicePlugs(d, pattern);
      todo := todo - {d};
    }
  }

  /** `switch(master, args, state)`. */
  method Switch<D, P>(s: Searches<D, P>, args: seq<string>, on: bool) returns (o: Outcome<D, P>)
    ensures SwitchSpec(s, args, on, o)
    ensures ExitCode(o) == 0 <==> 1 <= |args| <= 2 && PlugMatches(s, args) != {}
  {
    var matches: set<P>;
    if |args| == 0 {
      return Exit(1);
    } else if |args| == 1 {
      matches := s.searchPlug(args[0]);
    } else if |args| == 2 {
      matches := CollectPlugs(s, s.searchDevice(args[0]), args[1]);
    } else {
      return Exit(1);
    }
    match Resolve(matches)
    case NoMatch => o := Exit(1);
    case Act(targets, warned) => o := Switched(targets, on, warned);
  }

  /** An ambiguous plug name switches every plug it matches, and warns. */
  lemma AmbiguousSwitchActsOnAll<D, P>(s: Searches<D, P>, args: seq<string>, on: bool, o: Outcome<D, P>, a: P, b: P)
    requires SwitchSpec(s, args, on, o)
    requires 1 <= |args| <= 2
    requires a != b && a in PlugMatches(s, args) && b in PlugMatches(s, args)
    ensures o.Switched? && a in o.plugs && b in o.plugs && o.on == on && o.warned
  {
    var m := PlugMatches(s, args);
    assert {a, b} <= m;
    assert |{a, b}| == 2;
    SubsetCard({a, b}, m);
  }

  lemma SubsetCard<T>(x: set<T>, y: set<T>)
    requires x <= y
    ensures |x| <= |y|
  {
    assert y == x + (y - x);
  }

  // ---------------------------------------------------------------------
  // reset

  /** What `reset` promises: anything but one argument, or no matching
      device, exits with 1 and resets nothing; otherwise every matching device
      is reset, with a warning exactly when there are several. */
  ghost predicate ResetSpec<D, P>(s: Searches<D, P>, args: seq<string>, o: Outcome<D, P>) {
    if |args| != 1 then o == Exit(1)
    else
      var m := s.searchDevice(args[0]);
      if m == {} then o == Exit(1) else o == PowerCycled(m, |m| > 1)
  }

  /** `reset(master, args)`. */
  method PowerCycle<D, P>(s: Searches<D, P>, args: seq<string>) returns (o: Outcome<D, P>)
    ensures ResetSpec(s, args, o)
    ensures ExitCode(o) == 0 <==> |args| == 1 && s.searchDevice(args[0]) != {}
  {
    if |args| != 1 {
      return Exit(1);
    }
    match Resolve(s.searchDevice(args[0]))
    case NoMatch => o := Exit(1);
    case Act(targets, warned) => o := PowerCycled(targets, warned);
  }

  // ---------------------------------------------------------------------
  // save and show

  /** `save(master, args)`: build the store (or raise), then report the counts
      of `print_master`. Arguments are ignored. */
  method SaveConfig<D, P>(m: Master) returns (o: Outcome<D, P>)
    ensures Codec.Save(m).Failure? ==> o == Crashed(Codec.Save(m).error)
    ensures Codec.Save(m).Success? ==> o == Saved(Codec.Save(m).value, SaveReport(|m.devices|, TotalPlugs(m.devices)))
    ensures o.Saved? ==> (o.report.NoDevices? <==> |m.devices| == 0)
    ensures o.Saved? && o.report.Counted? ==> o.report.devices == |m.devices| && o.report.plugs == TotalPlugs(m.devices)
  {
    match Codec.Save(m)
    case Failure(e) =>
      o := Crashed(e);
    case Success(st) =>
      var deviceCount, plugCount := Summary(m);
      o := Saved(st, SaveReport(deviceCount, plugCount));
  }

  /** `show(master, args)`: the counts of `print_master`. Arguments are ignored. */
  method ShowSummary<D, P>(m: Master) returns (o: Outcome<D, P>)
    ensures o == Shown(|m.devices|, TotalPlugs(m.devices))
  {
    var deviceCount, plugCount := Summary(m);
    o := Shown(deviceCount, plugCount);
  }

  /** `commands[command][0](master, rest)`. */
  method Handle<D, P>(cmd: Command, rest: seq<string>, s: Searches<D, P>, m: Master) returns (o: Outcome<D, P>)
    ensures cmd == On ==> SwitchSpec(s, rest, true, o)
    ensures cmd == Off ==> SwitchSpec(s, rest, false, o)
    ensures cmd == Reset ==> ResetSpec(s, rest, o)
    ensures cmd == Save && Codec.Save(m).Failure? ==> o == Crashed(Codec.Save(m).error)
    ensures cmd == Save && Codec.Save(m).Success? ==>
      o == Saved(Codec.Save(m).value, SaveReport(|m.devices|, TotalPlugs(m.devices)))
    ensures cmd == Show ==> o == Shown(|m.devices|, TotalPlugs(m.devices))
  {
    match cmd
    case On => o := Switch(s, rest, true);
    case Off => o := Switch(s, rest, false);
    case Reset => o := PowerCycle(s, rest);
    case Save => o := SaveConfig(m);
    case Show => o := ShowSummary(m);
  }

  // ---------------------------------------------------------------------
  // main

  /** Command-line options after parsing; an absent value falls back to the
      configuration. */
  datatype Options = Options(
    list: bool,
    discover: bool,
    user: Option<string>,
    password: Option<string>,
    pin: Option<int>,
    pout: Option<int>)

  /** Where `main` stands just before calling the command's handler. */
  datatype Plan =
    | Crash(error: Codec.LoadError)
    | Listed
    | Stop(code: int)
    | Dispatch(command: Command, rest: seq<string>, settings: Settings,
               load: bool, bootstrap: seq<DeviceDef>, discover: bool)

  /** `main` up to the dispatch: read the GENERAL defaults (before anything
      else), honour `-l`, check the command, construct the master with the
      option values or the defaults, and load the configured devices unless
      `-d` was given or the command is `save`. */
  function Prepare(st: Store, opts: Options, args: seq<string>): (p: Plan)
    ensures Codec.ReadSettings(st).Failure? ==> p.Crash?
    ensures Codec.ReadSettings(st).Success? && opts.list ==> p == Listed
    ensures Codec.ReadSettings(st).Success? && !opts.list && |args| == 0 ==> p == Stop(1)
    ensures Codec.ReadSettings(st).Success? && !opts.list && |args| > 0 && CommandOf(args[0]).None? ==> p == Stop(1)
    ensures Codec.ReadSettings(st).Success? && !opts.list && |args| > 0 && CommandOf(args[0]).Some? ==> p.Dispatch? || p.Crash?
    ensures p.Dispatch? ==> |args| > 0 && CommandOf(args[0]) == Some(p.command) && p.rest == args[1..]
    ensures p.Dispatch? ==> (p.load <==> !opts.discover && p.command != Save) && p.discover == opts.discover
    ensures p.Dispatch? && p.load ==> Codec.LoadDevices(st) == Success(p.bootstrap)
    ensures p.Dispatch? && !p.load ==> p.bootstrap == []
    ensures p.Dispatch? ==>
      && p.settings.user == (if opts.user.Some? then opts.user.value else Codec.ReadSettings(st).value.user)
      && p.settings.password == (if opts.password.Some? then opts.password.value else Codec.ReadSettings(st).value.password)
      && p.settings.pin == (if opts.pin.Some? then opts.pin.value else Codec.ReadSettings(st).value.pin)
      && p.settings.pout == (if opts.pout.Some? then opts.pout.value else Codec.ReadSettings(st).value.pout)
    ensures p.Crash? && Codec.ReadSettings(st).Success? ==>
      |args| > 0 && !opts.discover && CommandOf(args[0]).Some? && CommandOf(args[0]) != Some(Save)
      && Codec.LoadDevices(st).Failure?
  {
    match Codec.ReadSettings(st)
    case Failure(e) => Crash(e)
    case Success(fallback) =>
      if opts.list then Listed
      else if |args| == 0 then Stop(1)
      else match CommandOf(args[0])
        case None => Stop(1)
        case Some(cmd) =>
          var settings := Settings(opts.user.GetOr(fallback.user), opts.password.GetOr(fallback.password),
                                   opts.pin.GetOr(fallback.pin), opts.pout.GetOr(fallback.pout));
          if !opts.discover && cmd != Save then
            match Codec.LoadDevices(st)
            case Failure(e) => Crash(e)
            case Success(defs) => Dispatch(cmd, args[1..], settings, true, defs, opts.discover)
          else Dispatch(cmd, args[1..], settings, false, [], opts.discover)
  }

  /** Without a configuration file every default is the built-in one:
      admin, anel, 75 and 77. */
  lemma DefaultsWithoutConfig(opts: Options, args: seq<string>)
    requires opts.user.None? && opts.password.None? && opts.pin.None? && opts.pout.None?
    requires Prepare([], opts, args).Dispatch?
    ensures Prepare([], opts, args).settings == Settings("admin", "anel", 75, 77)
  {
    assert Names([]) == [];
  }

  /** The invocation after a `save` starts from what was saved: the saved
      credentials and ports, and one create_device call per saved device. */
  lemma SavedConfigBootstraps(m: Master, opts: Options, args: seq<string>)
    requires Codec.ValidForSave(m)
    requires !opts.list && !opts.discover
    requires opts.user.None? && opts.password.None? && opts.pin.None? && opts.pout.None?
    requires |args| > 0 && CommandOf(args[0]).Some? && CommandOf(args[0]) != Some(Save)
    ensures Codec.Save(m).Success?
    ensures Prepare(Codec.Save(m).value, opts, args)
         == Dispatch(CommandOf(args[0]).value, args[1..], SettingsOf(m), true, Codec.Defs(m.devices), false)
  {
    Codec.RoundTrip(m);
  }
}
