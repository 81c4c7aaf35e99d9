# pypwrctrl command-line core in Dafny

pypwrctrl drives Anel NET-PwrCtrl power strips: network devices, each with
several switchable outlets (plugs). Its command-line front end `main.py` has
three parts, which this project models as pure functions and short methods:

- **Configuration codec.** `save` turns the registry (a `PlugMaster` with
  credentials, ports and devices) into a ConfigParser store. The store has a
  `GENERAL` section, then one section per device address. Each device
  section holds `name` and one `plug_<index>` entry per plug.
  `load_devices` reads device sections back into `create_device` calls.
  `main` reads the credential and port defaults from `GENERAL`.
- **Command router.** The command table is `on`, `off`, `save`, `show` and
  `reset`. `switch` and `reset` first check the argument count. They then
  apply one match policy: no match exits with 1; otherwise every match is
  acted on, with a warning when there is more than one.
- **Summary.** `print_master` counts devices and plugs. It renders a plug's
  integer state as on or off only when the state is not negative.

Modules, one per component:

| file | module | models |
|---|---|---|
| wrappers.dfy | `Wrappers`, `Seqs` | Option/Result; distinctness and first index of sequences |
| pyint.dfy | `PyInt` | Python's base-10 `str(int)` and `int(str)` |
| store.dfy | `ConfigStore` | the ConfigParser store: ordered sections of ordered options, `add_section`, `set`, `get` |
| registry.dfy | `Registry` | plugs, devices, the master, `print_master`'s counts and state rendering |
| codec.dfy | `Codec` | `save`, `load_devices`, the `GENERAL` defaults, and the round trip |
| router.dfy | `Router` | the command table, `switch`, `reset`, `save`, `show` and `main` |

Modelling choices:

- The store is a sequence of `Section(name, options)`, not file text.
  `add_section` fails on a name already present. `set` fails on a missing
  section. `set` on an existing key keeps the key's position and replaces its
  value, as a Python dict does.
- Python's `int()` and `str()` are written out. `int()` strips whitespace,
  takes an optional sign, and accepts digits with single underscores between
  them. So the key `plug_1_0` loads as index 10. `re.match` anchors only at
  the start, so `plug_3x` passes the prefix test and then `int()` raises
  ValueError. The model gives a `Failure` for that case, which aborts the
  whole load.
- A negative plug index is saved as `plug_-1`. The prefix test rejects that
  key, so the plug is silently dropped on the next load.
- The name searches of `PlugMaster` and `Device` live in the package
  `__init__`, which is not part of this model. They are the function fields
  of `Router.Searches` and return sets. An operation's effect is recorded in
  `Router.Outcome`: which plugs were switched (and to which state), which
  devices were reset, which store was written, which counts were shown.
- A handler that returns None ends the process with status 0. An exception
  escaping `main` is modelled as `Crash`/`Crashed` with status 1.
- `main` is split at the dispatch. `Router.Prepare` models everything up to
  `commands[command][0](master, rest)`; `Router.Handle` models the dispatch.
  The registry at dispatch time depends on `create_device` and `discover`,
  which are not part of this model. It is therefore a parameter of `Handle`.

## Behaviour worth noting

- `load_devices` keeps plug keys in option order. It does not sort them by
  index.
- A plug key that matches the prefix but is not an integer (`plug_3x`) aborts
  the load. It is not skipped.
- `save` and `show` ignore any arguments they are given.
- A plug's state is an integer: negative means unknown, zero off, anything
  else on.
- `save` raises DuplicateSectionError for a repeated address. Any duplicate
  check inside `create_device` is not part of this model.
- `save` without `-d` neither loads the configured devices nor discovers any.
  It writes whatever devices the freshly built master holds
  (`Router.Prepare`: `load` is false for `save`).

## Model

| member | source | states |
|---|---|---|
| `PyInt.NatToString` | pypwrctrl/main.py:119 | `str(n)` of a non-negative index is a non-empty run of digits, with no leading zero unless n is 0 |
| `PyInt.ParseInt` | pypwrctrl/main.py:54 | `int()` of text starting with a digit is never negative; a plain numeral reads as its digit value |
| `PyInt.ParseIntToString` | pypwrctrl/main.py:111-112 | `int(str(n)) == n` for every int, so saved ports read back unchanged |
| `ConfigStore.AddSection` | pypwrctrl/main.py:115 | `add_section` fails with DuplicateSection exactly when the name is taken; otherwise it appends an empty section |
| `ConfigStore.SetOption` | pypwrctrl/main.py:116 | `set` fails with NoSection exactly when the section is missing; otherwise the section names are unchanged |
| `ConfigStore.Put` | pypwrctrl/main.py:120 | setting a key makes it read back the new value and leaves every other key's value alone; an existing key keeps its position, a new key is appended |
| `ConfigStore.AddSectionFrame` | pypwrctrl/main.py:108 | a new section reads as empty; other sections read as before; the store stays well formed |
| `ConfigStore.SetOptionFrame` | pypwrctrl/main.py:109-112 | the set option reads back; every other (section, key) reads as before; the store stays well formed |
| `Registry.StateShown` | pypwrctrl/main.py:26-27 | a negative state shows nothing; zero shows off; a positive state shows on |
| `Registry.Summary` | pypwrctrl/main.py:17-34 | returns the number of devices and the number of plugs summed over all devices |
| `Registry.SaveReport` | pypwrctrl/main.py:127-130 | the "without any devices" report is chosen exactly when the device count is 0; otherwise both counts are reported |
| `PyInt.IntToString` | pypwrctrl/main.py:111-112 | `str(n)` is non-empty, starts with a minus sign exactly when n is negative, and has no surrounding whitespace; `int()` reads it back as n (see `PyInt.ParseIntToString`) |
| `PyInt.ParseIntDigitGroups` | pypwrctrl/main.py:54 | digits with single underscores between them read as the digits' value with the underscores dropped |
| `ConfigStore.Get` | pypwrctrl/main.py:46 | `get` finds a value only in a section that exists; on any well-formed store it reads that section's own option (see `ConfigStore.GetReadsSection`); how it reads after `add_section` and `set` is in `ConfigStore.AddSectionFrame` and `ConfigStore.SetOptionFrame` |
| `ConfigStore.GetReadsSection` | pypwrctrl/main.py:46 | in a well-formed store, `get` of an existing section and a key gives that section's value for the key, and None exactly when the section lacks the key |
| `Codec.PlugKey` | pypwrctrl/main.py:119 | a plug's key is `plug_` followed by its index text; it passes the prefix match exactly when the index is not negative and reads back as the index (see `Codec.PlugKeyRoundTrip`) |
| `Codec.IsPlugKey` | pypwrctrl/main.py:51 | the prefix match `plug_\d+`, anchored only at the start; see `Codec.PlugKeyRoundTrip`, `Codec.UnderscoredPlugKey` and `Codec.TrailingJunkPlugKey` |
| `Codec.GetInt` | pypwrctrl/main.py:177-178 | `getint` fails exactly when the option is present and not an integer; otherwise it gives the option's integer value, or the fallback when the option is absent |
| `Codec.SaveGeneral` | pypwrctrl/main.py:108-112 | the GENERAL part of `save`; `Codec.SaveGeneralLayout` states that it always succeeds and holds user, password, `str(pin)` and `str(pout)` in that order |
| `Codec.SaveDevices` | pypwrctrl/main.py:114-120 | the device loop of `save`; `Codec.SaveDevicesSucceeds` states when it succeeds, `Codec.SaveDevicesNames` and `Codec.SaveDevicesWellFormed` what a success writes, and `Codec.SaveDevicesLayout` the sections themselves when all names are distinct and indices are distinct per device |
| `Codec.Save` | pypwrctrl/main.py:105-120 | a successful `save` writes GENERAL and then one section per device address, in registry order, and the store is well formed; see `Codec.SaveLayout`, `Codec.SaveFailsOnCollision` and `Codec.RoundTrip` |
| `Codec.SaveDevicesNames` | pypwrctrl/main.py:114-115 | when the device loop succeeds, it has appended exactly the device addresses, in order, to the section names |
| `Codec.SaveDevicesWellFormed` | pypwrctrl/main.py:114-120 | when the device loop succeeds on a well-formed store, no section name and no key within a section appears twice |
| `Codec.ParsePlugs` | pypwrctrl/main.py:48-57 | a failure names the section being read; a success gives at most one pair per option; see `Codec.ParsePlugsReadsPlugOptions` and `Codec.ParsePlugsFails` |
| `Codec.LoadDevices` | pypwrctrl/main.py:36-59 | the only failure is a bad plug index; a success gives at most one device per section; see `Codec.LoadDevicesCalls` and `Codec.LoadDevicesFails` |
| `Codec.PlugKeyRoundTrip` | pypwrctrl/main.py:51-54 | the key saved for index i passes the prefix match exactly when i >= 0, and then `int()` reads back i |
| `Codec.UnderscoredPlugKey` | pypwrctrl/main.py:51-54 | `plug_1_0` is a plug key with index 10 |
| `Codec.TrailingJunkPlugKey` | pypwrctrl/main.py:51-54 | `plug_3x` passes the prefix match and `int()` rejects it |
| `Codec.SetAll` | pypwrctrl/main.py:118-120 | a run of `set` calls into an existing section succeeds, keeps the section names and keeps the store well formed |
| `Codec.AddFilled` | pypwrctrl/main.py:114-116 | adding a device section fails exactly when its address is already a section name; the store stays well formed |
| `Codec.SaveGeneralLayout` | pypwrctrl/main.py:108-112 | `save` starts with GENERAL holding user, password, `str(pin)` and `str(pout)`, in that order |
| `Codec.SaveDevicesSucceeds` | pypwrctrl/main.py:114-120 | writing the device sections succeeds exactly when the existing names and the addresses are all distinct |
| `Codec.SaveLayout` | pypwrctrl/main.py:105-120 | with distinct addresses other than GENERAL and distinct indices per device, `save` writes GENERAL and then one section per device in registry order, each holding `name` and then a `plug_<index>` entry per plug in plug order |
| `Codec.SaveFailsOnCollision` | pypwrctrl/main.py:108-115 | `save` raises DuplicateSectionError exactly when two devices share an address or an address is GENERAL |
| `Codec.ParsePlugsFails` | pypwrctrl/main.py:50-54 | a section's plugs fail to load exactly when one of its keys passes the prefix match but not `int()` |
| `Codec.ParsePlugsReadsPlugOptions` | pypwrctrl/main.py:48-57 | a section yields one (index, name) pair per plug-key option, in option order, with the index `int()` reads (never negative) and the option's value; other keys are ignored |
| `Codec.LoadDevicesFails` | pypwrctrl/main.py:36-59 | the load aborts exactly when some section other than GENERAL that has a name holds a bad plug key |
| `Codec.LoadDevicesCalls` | pypwrctrl/main.py:36-59 | GENERAL and nameless sections yield no device; every other section yields exactly one create_device call, in section order, with the section name as address, the `name` option as name and that section's plug pairs |
| `Codec.ReadSettings` | pypwrctrl/main.py:175-178 | each GENERAL option present is used and each absent one falls back to admin, anel, 75 or 77; reading fails exactly when pin or pout is present but not an integer |
| `Codec.ReadSettingsLayout` | pypwrctrl/main.py:108-112 | the GENERAL section `save` writes reads back the master's user, password, pin and pout |
| `Codec.RoundTrip` | pypwrctrl/main.py:36-120 | with distinct addresses other than GENERAL and distinct indices per device, loading what `save` wrote issues one create_device call per device, in order, with its address, name and (index, name) pairs in plug order, negative indices dropped; the defaults read back as saved |
| `Codec.PlugDefsKeepAll` | pypwrctrl/main.py:51-57 | with non-negative indices every plug comes back as its own (index, name) pair, in order |
| `Codec.SavedCountsMatchLoad` | pypwrctrl/main.py:125-130 | with distinct addresses other than GENERAL and distinct, non-negative indices per device, the device and plug counts `save` reports equal the number of create_device calls and of plug pairs the written file gives back |
| `Router.CommandOf` | pypwrctrl/main.py:140-166 | a name is a command exactly when it is one of on, off, save, show and reset, and then it names that command |
| `Router.Resolve` | pypwrctrl/main.py:77-84 | no match means stop; otherwise act on every match, warning exactly when there is more than one |
| `Router.CollectPlugs` | pypwrctrl/main.py:67-72 | the loop over matched devices yields the union of each device's plug search |
| `Router.Switch` | pypwrctrl/main.py:61-84 | 0 or 3+ arguments exit with 1 and switch nothing; one argument searches all plugs; two search the plugs of the matched devices; no match exits with 1; otherwise every match is switched to the state, with a warning exactly when there are several; the exit status is 0 exactly in that last case |
| `Router.AmbiguousSwitchActsOnAll` | pypwrctrl/main.py:77-84 | two distinct matching plugs are both switched, and the warning is given |
| `Router.PowerCycle` | pypwrctrl/main.py:86-103 | anything but one argument exits with 1 and resets nothing; no matching device exits with 1; otherwise every matching device is reset, with a warning exactly when there are several |
| `Router.SaveConfig` | pypwrctrl/main.py:105-130 | a collision crashes; otherwise the store `save` builds is written and the report counts the devices and plugs, with the no-devices text exactly when there are none |
| `Router.ShowSummary` | pypwrctrl/main.py:132-135 | reports the device count and the total plug count |
| `Router.Handle` | pypwrctrl/main.py:238 | each command runs its handler with the remaining arguments: on and off switch to true and false, reset resets, save writes, show counts |
| `Router.Prepare` | pypwrctrl/main.py:170-233 | bad GENERAL integers crash before anything else; `-l` lists; no command or an unknown one exits with 1; a known command is dispatched unless loading crashes, which happens only when devices are loaded and a section holds a bad plug key; an option value overrides its default; devices are loaded exactly when `-d` is absent and the command is not save |
| `Router.DefaultsWithoutConfig` | pypwrctrl/main.py:175-178 | with no configuration and no options the defaults are admin, anel, 75 and 77 |
| `Router.SavedConfigBootstraps` | pypwrctrl/main.py:229-233 | with the same conditions on the master as `Codec.RoundTrip`, after a `save` the next invocation of a known command other than `save`, without `-l`, other options or `-d`, starts from the saved credentials and ports and one create_device call per saved device |

## Left out

- File I/O: the `open`/`write` in `save` (main.py:122-123) and `config.read` in `main` (main.py:171). A missing file is modelled as the empty store.
- ConfigParser's text format and quirks are not modelled. These are: key lower-casing, the DEFAULT section and its inheritance, `%` interpolation (which raises on some names), and multi-line values. The store holds values as given.
- Option parsing (main.py:184-213) and the `-l` listing text. Options arrive already parsed in `Router.Options`.
- Printed text. Only the exit statuses, the warnings and the counts are modelled.
- `PlugMaster`, `Device` and `Plug` internals (the package `__init__` is not part of this model). This covers name matching, `discover`, `create_device` (including any duplicate check), and the network behaviour of `Plug.switch` and `Device.reset`, including their failures. The searches are parameters; a handler's effect is the set it acts on.
- The order in which a Python set is iterated when switching or resetting. The model records the set of entities acted on.
- Non-ASCII whitespace and non-ASCII digits, which Python's `int()` and `\d` also accept.
- `Codec.RoundTrip`, `Codec.SaveFailsOnCollision` and `Router.SaveConfig` do not cover ConfigParser's special inputs. These are the address `DEFAULT` (`add_section` raises ValueError), an empty address (`set` writes into DEFAULT), and `%` in a name or a credential (interpolation raises, or changes the value read back).
- `PyInt.ParseIntToString` holds for every integer, but CPython 3.11 and later refuse `int`/`str` conversions of more than 4300 digits (`sys.int_info.default_max_str_digits`). That limit is not modelled.
- `setup.py`, which is packaging metadata.
