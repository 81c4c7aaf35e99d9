/** The configuration store the codec writes and reads: an ordered list of
    named sections, each an ordered list of (key, value) options. This is the
    part of Python's ConfigParser the codec relies on (`sections`, `options`,
    `has_option`, `get`, `add_section`, `set`), without its text syntax. */
module ConfigStore {
  import opened Wrappers
  import opened Seqs

  datatype Section = Section(name: string, options: seq<(string, string)>)

  type Store = seq<Section>

  /** The exceptions `add_section` and `set` raise. */
  datatype StoreError = DuplicateSection(section: string) | NoSection(section: string)

  function Names(st: Store): seq<string> {
    seq(|st|, i requires 0 <= i < |st| => st[i].name)
  }

  function Keys(opts: seq<(string, string)>): seq<string> {
    seq(|opts|, i requires 0 <= i < |opts| => opts[i].0)
  }

  /** A store ConfigParser can hold: section names distinct, and option keys
      distinct within each section. */
  predicate WellFormed(st: Store) {
    && Distinct(Names(st))
    && forall i :: 0 <= i < |st| ==> Distinct(Keys(st[i].options))
  }

  /** The value of the first option named key. */
  function Lookup(opts: seq<(string, string)>, key: string): (r: Option<string>)
    ensures r.None? <==> key !in Keys(opts)
    ensures r.Some? ==> (key, r.value) in opts
  {
    if |opts| == 0 then None
    else
      assert Keys(opts) == [opts[0].0] + Keys(opts[1..]);
      if opts[0].0 == key then Some(opts[0].1)
      else Lookup(opts[1..], key)
  }

  /** `get(section, key)`: None when the section or the option is missing. */
  function Get(st: Store, section: string, key: string): (r: Option<string>)
    ensures r.Some? ==> section in Names(st)
  {
    if section in Names(st) then Lookup(st[IndexOf(Names(st), section)].options, key) else None
  }

  /** Dictionary assignment on a section's options: an existing key keeps its
      position and takes the new value; a new key is appended. */
  function Put(opts: seq<(string, string)>, key: string, value: string): (r: seq<(string, string)>)
    ensures Lookup(r, key) == Some(value)
    ensures forall k :: k != key ==> Lookup(r, k) == Lookup(opts, k)
    ensures key in Keys(opts) ==> Keys(r) == Keys(opts)
    ensures key !in Keys(opts) ==> r == opts + [(key, value)]
  {
    if |opts| == 0 then [(key, value)]
    else
      KeysConcat([opts[0]], opts[1..]);
      assert [opts[0]] + opts[1..] == opts;
      if opts[0].0 == key then
        KeysConcat([(key, value)], opts[1..]);
        [(key, value)] + opts[1..]
      else
        var rest := Put(opts[1..], key, value);
        KeysConcat([opts[0]], rest);
        AppendAssoc([opts[0]], opts[1..], [(key, value)]);
        [opts[0]] + rest
  }

  lemma KeysConcat(a: seq<(string, string)>, b: seq<(string, string)>)
    ensures Keys(a + b) == Keys(a) + Keys(b)
  {
    var l, r := Keys(a + b), Keys(a) + Keys(b);
    forall k | 0 <= k < |l|
      ensures l[k] == r[k]
    {
      if k < |a| {
        assert l[k] == a[k].0;
      } else {
        assert l[k] == b[k - |a|].0;
      }
    }
  }

  lemma PutKeepsKeysDistinct(opts: seq<(string, string)>, key: string, value: string)
    requires Distinct(Keys(opts))
    ensures Distinct(Keys(Put(opts, key, value)))
  {
    if key !in Keys(opts) {
      assert Keys(opts + [(key, value)]) == Keys(opts) + [key];
    }
  }

  /** `add_section(name)`: fails with DuplicateSection when the name is taken,
      otherwise appends an empty section. */
  function AddSection(st: Store, name: string): (r: Result<Store, StoreError>)
    ensures r.Failure? <==> name in Names(st)
    ensures r.Failure? ==> r.error == DuplicateSection(name)
    ensures r.Success? ==> r.value == st + [Section(name, [])]
    ensures r.Success? ==> Names(r.value) == Names(st) + [name]
  {
    if name in Names(st) then Failure(DuplicateSection(name))
    else
      var st' := st + [Section(name, [])];
      assert Names(st') == Names(st) + [name];
      Success(st')
  }

  /** `set(section, key, value)`: fails with NoSection when the section is
      missing, otherwise assigns the option in that section only. */
  function SetOption(st: Store, section: string, key: string, value: string): (r: Result<Store, StoreError>)
    ensures r.Failure? <==> section !in Names(st)
    ensures r.Failure? ==> r.error == NoSection(section)
    ensures r.Success? ==> Names(r.value) == Names(st)
  {
    if section in Names(st) then
      var i := IndexOf(Names(st), section);
      var st' := st[i := Section(section, Put(st[i].options, key, value))];
      assert Names(st') == Names(st);
      Success(st')
    else Failure(NoSection(section))
  }

  /** A new section reads as empty and leaves every other section as it was;
      the store stays well formed. */
  lemma AddSectionFrame(st: Store, name: string)
    requires AddSection(st, name).Success?
    ensures forall k :: Get(AddSection(st, name).value, name, k).None?
    ensures forall s, k :: s != name ==> Get(AddSection(st, name).value, s, k) == Get(st, s, k)
    ensures WellFormed(st) ==> WellFormed(AddSection(st, name).value)
  {
    var st' := AddSection(st, name).value;
    assert IndexOf(Names(st'), name) == |st|;
    forall s | s != name && s in Names(st)
      ensures IndexOf(Names(st'), s) == IndexOf(Names(st), s)
    {
      IndexOfFirst(Names(st'), s, IndexOf(Names(st), s));
    }
  }

  /** Setting an option makes it read back and leaves every other option of
      the store as it was; the store stays well formed. */
  lemma SetOptionFrame(st: Store, section: string, key: string, value: string)
    requires SetOption(st, section, key, value).Success?
    ensures Get(SetOption(st, section, key, value).value, section, key) == Some(value)
    ensures forall s, k :: s != section || k != key ==>
      Get(SetOption(st, section, key, value).value, s, k) == Get(st, s, k)
    ensures WellFormed(st) ==> WellFormed(SetOption(st, section, key, value).value)
  {
    var i := IndexOf(Names(st), section);
    if WellFormed(st) {
      PutKeepsKeysDistinct(st[i].options, key, value);
    }
  }

  /** Setting a new key in the last section, whose name occurs nowhere else,
      appends the option to that section. */
  lemma SetOptionAppends(st: Store, section: string, opts: seq<(string, string)>, key: string, value: string)
    requires section !in Names(st) && key !in Keys(opts)
    ensures SetOption(st + [Section(section, opts)], section, key, value)
         == Success(st + [Section(section, opts + [(key, value)])])
  {
    var st' := st + [Section(section, opts)];
    assert Names(st') == Names(st) + [section];
    IndexOfFirst(Names(st'), section, |st|);
    assert Put(opts, key, value) == opts + [(key, value)];
    assert st'[|st| := Section(section, opts + [(key, value)])] == st + [Section(section, opts + [(key, value)])];
  }

  lemma IndexOfFirst<T>(xs: seq<T>, x: T, i: nat)
    requires i < |xs| && xs[i] == x && x !in xs[..i]
    ensures IndexOf(xs, x) == i
  {
  }

  /** In a well-formed store, `get` on an existing section reads that
      section's own options. */
  lemma GetReadsSection(st: Store, i: nat, key: string)
    requires WellFormed(st) && i < |st|
    ensures Get(st, st[i].name, key) == Lookup(st[i].options, key)
  {
    var ns := Names(st);
    assert ns[i] == st[i].name;
    var j := IndexOf(ns, st[i].name);
    assert ns[j] == ns[i];
  }
}
