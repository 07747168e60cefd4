/** The configuration tree: `Dict`, a dictionary whose entries can also be
    read and written as attributes, the recursive overlay of an override
    configuration on the defaults, and the conversion of a nested plain
    dictionary into nested `Dict`s. */
module Config {
  import opened Wrappers

  /** A configuration value: a leaf (a number, a string, a flag, `None`) or a
      dictionary.  `isString` tells a `str` leaf, which answers `in` by a
      substring test, from the others, which do not answer `in` at all.
      `attrAccess` tells a `Dict` from a plain `dict`; the two compare equal
      in Python when their entries do. */
  datatype Conf = Leaf(text: string, isString: bool) | Node(entries: map<string, Conf>, attrAccess: bool)

  /** Equality as Python's `==` sees it: the `Dict`/`dict` distinction is
      ignored at every level. */
  predicate Same(a: Conf, b: Conf) {
    match a
    case Leaf(_, _) => a == b
    case Node(ea, _) =>
      b.Node? && ea.Keys == b.entries.Keys
      && forall k :: k in ea ==> Same(ea[k], b.entries[k])
  }

  lemma {:induction false} SameReflexive(a: Conf)
    ensures Same(a, a)
  {
    match a
    case Leaf(_, _) =>
    case Node(ea, _) =>
      forall k | k in ea ensures Same(ea[k], ea[k]) {
        SameReflexive(ea[k]);
      }
  }

  // ------------------------------------------------------------------ Dict

  /** `Dict(names, values, **kw)`: the keyword entries first, then the
      zipped pairs in order, later ones overwriting; `zip` stops at the
      shorter of the two lists. */
  function MakeDict(names: seq<string>, values: seq<Conf>, kw: map<string, Conf>): (d: Conf)
    ensures d.Node? && d.attrAccess
    ensures forall k :: k in d.entries <==> k in kw || k in Zipped(names, values)
  {
    Node(Zip(kw, names, values), true)
  }

  /** The names `zip(names, values)` pairs with a value. */
  function Zipped(names: seq<string>, values: seq<Conf>): seq<string> {
    names[..if |names| < |values| then |names| else |values|]
  }

  function Zip(m: map<string, Conf>, names: seq<string>, values: seq<Conf>): (r: map<string, Conf>)
    ensures forall k :: k in r <==> k in m || k in Zipped(names, values)
    decreases |names|
  {
    if |names| == 0 || |values| == 0 then m
    else
      assert Zipped(names, values) == [names[0]] + Zipped(names[1..], values[1..]);
      Zip(m[names[0] := values[0]], names[1..], values[1..])
  }

  /** The value `Dict(names, values, **kw)` holds under a key: that of the
      last pair naming it, or failing that the keyword entry. */
  lemma {:induction false} MakeDictLastWins(names: seq<string>, values: seq<Conf>, kw: map<string, Conf>, k: string, i: nat)
    requires i < |names| && i < |values| && names[i] == k
    requires forall j :: i < j < |names| && j < |values| ==> names[j] != k
    ensures MakeDict(names, values, kw).entries[k] == values[i]
  {
    ZipLastWins(kw, names, values, k, i);
  }

  lemma {:induction false} ZipLastWins(m: map<string, Conf>, names: seq<string>, values: seq<Conf>, k: string, i: nat)
    requires i < |names| && i < |values| && names[i] == k
    requires forall j :: i < j < |names| && j < |values| ==> names[j] != k
    ensures k in Zip(m, names, values) && Zip(m, names, values)[k] == values[i]
    decreases i
  {
    if i == 0 {
      ZipKeeps(m[names[0] := values[0]], names[1..], values[1..], k);
    } else {
      ZipLastWins(m[names[0] := values[0]], names[1..], values[1..], k, i - 1);
    }
  }

  lemma {:induction false} ZipKeeps(m: map<string, Conf>, names: seq<string>, values: seq<Conf>, k: string)
    requires k in m
    requires forall j :: 0 <= j < |names| && j < |values| ==> names[j] != k
    ensures k in Zip(m, names, values) && Zip(m, names, values)[k] == m[k]
    decreases |names|
  {
    if |names| > 0 && |values| > 0 {
      ZipKeeps(m[names[0] := values[0]], names[1..], values[1..], k);
    }
  }

  /** A keyword entry survives when no zipped pair names its key. */
  lemma {:induction false} MakeDictKeyword(names: seq<string>, values: seq<Conf>, kw: map<string, Conf>, k: string)
    requires k in kw
    requires forall j :: 0 <= j < |names| && j < |values| ==> names[j] != k
    ensures MakeDict(names, values, kw).entries[k] == kw[k]
  {
    ZipKeeps(kw, names, values, k);
  }

  function NoAttributeMessage(key: string): string {
    "'Dict' object has no attribute '" + key + "'"
  }

  /** The public methods every `dict` has; attribute lookup finds these on
      the class before `__getattr__` is consulted. */
  const DictMethods: set<string> :=
    {"clear", "copy", "fromkeys", "get", "items", "keys", "pop", "popitem",
     "setdefault", "update", "values"}

  /** `d.key` on a `Dict`, for a name the class does not define itself: the
      entry, or `AttributeError`. */
  function GetAttr(d: Conf, key: string): (r: Result<Conf, string>)
    requires d.Node? && d.attrAccess && key !in DictMethods
    ensures r.Success? <==> key in d.entries
    ensures r.Success? ==> r.value == d.entries[key]
    ensures r.Failure? ==> r.error == NoAttributeMessage(key)
  {
    if key in d.entries then Success(d.entries[key]) else Failure(NoAttributeMessage(key))
  }

  /** `d.key = value` on a `Dict`: an ordinary item assignment, whatever
      the name. */
  function SetAttr(d: Conf, key: string, value: Conf): (r: Conf)
    requires d.Node? && d.attrAccess
    ensures r.Node? && r.attrAccess == d.attrAccess
    ensures key in r.entries && r.entries[key] == value
    ensures forall k :: k != key ==> (k in r.entries <==> k in d.entries)
    ensures forall k :: k != key && k in d.entries ==> r.entries[k] == d.entries[k]
  {
    Node(d.entries[key := value], d.attrAccess)
  }

  /** Reading an attribute gives what was last written to it, and writing
      one attribute leaves every other alone. */
  lemma {:induction false} AttributesAreEntries(d: Conf, key: string, other: string, value: Conf)
    requires d.Node? && d.attrAccess && key !in DictMethods && other !in DictMethods
    ensures GetAttr(SetAttr(d, key, value), key) == Success(value)
    ensures other != key ==> GetAttr(SetAttr(d, key, value), other) == GetAttr(d, other)
  {
  }

  // ----------------------------------------------------------------- merge

  /** The exception a failing `merge` raises: a leaf that does not answer
      `in`, and a string indexed by a key, both raise `TypeError`. */
  const MergeTypeError := "TypeError"

  /** Python's `key in text` on strings: `key` occurs in `text` as a
      contiguous run; the empty string occurs in every string. */
  predicate Contains(text: string, key: string)
    decreases |text|
  {
    |key| <= |text| && (text[..|key|] == key || Contains(text[1..], key))
  }

  /** Whether `merge(defaults, override)` runs to completion, at any depth.
      A dictionary default facing a string override survives only when no
      key of the default occurs in the string, since a key that does is
      then used as a string index; facing any other leaf it survives only
      when it is empty, since the leaf does not answer `in`. */
  predicate Mergeable(defaults: Conf, override: Conf)
    requires defaults.Node?
  {
    match override
    case Leaf(text, isString) =>
      if isString then forall k :: k in defaults.entries ==> !Contains(text, k)
      else |defaults.entries| == 0
    case Node(o, _) =>
      forall k :: k in defaults.entries && k in o && defaults.entries[k].Node? ==>
        Mergeable(defaults.entries[k], o[k])
  }

  /** The dictionary `merge` builds when it does not fail. */
  function Overlay(defaults: Conf, override: Conf): (r: map<string, Conf>)
    requires defaults.Node? && Mergeable(defaults, override)
    ensures r.Keys == defaults.entries.Keys
  {
    match override
    case Leaf(_, _) => defaults.entries
    case Node(o, _) =>
      map k | k in defaults.entries ::
        if k !in o then defaults.entries[k]
        else if defaults.entries[k].Node? then Node(Overlay(defaults.entries[k], o[k]), false)
        else o[k]
  }

  /** `merge(defaults, override)`: a fresh plain dictionary with exactly the
      keys of the defaults. */
  function Merge(defaults: Conf, override: Conf): (r: Result<Conf, string>)
    requires defaults.Node?
    ensures r.Success? <==> Mergeable(defaults, override)
    ensures r.Success? ==> r.value.Node? && !r.value.attrAccess
    ensures r.Success? ==> r.value.entries.Keys == defaults.entries.Keys
    ensures r.Failure? ==> r.error == MergeTypeError
  {
    if Mergeable(defaults, override) then Success(Node(Overlay(defaults, override), false))
    else Failure(MergeTypeError)
  }

  /** Entry by entry: a key the override lacks keeps its default, a leaf
      default the override names takes the override's value, and a
      dictionary default is merged with the override's entry. */
  lemma {:induction false} MergeEntries(defaults: Conf, override: Conf, k: string)
    requires defaults.Node? && override.Node? && Mergeable(defaults, override)
    requires k in defaults.entries
    ensures var d := defaults.entries[k];
      var r := Merge(defaults, override).value.entries[k];
      && (k !in override.entries ==> r == d)
      && (k in override.entries && d.Leaf? ==> r == override.entries[k])
      && (k in override.entries && d.Node? ==> Merge(d, override.entries[k]) == Success(r))
  {
  }

  /** Overlaying an empty override gives the defaults back. */
  lemma {:induction false} MergeEmpty(defaults: Conf, flag: bool)
    requires defaults.Node?
    ensures Merge(defaults, Node(map[], flag)).Success?
    ensures Same(Merge(defaults, Node(map[], flag)).value, defaults)
  {
    var r := Merge(defaults, Node(map[], flag)).value;
    forall k | k in defaults.entries ensures Same(r.entries[k], defaults.entries[k]) {
      SameReflexive(defaults.entries[k]);
    }
  }

  /** Overlaying the defaults on themselves gives them back too. */
  lemma {:induction false} MergeSelf(defaults: Conf)
    requires defaults.Node?
    ensures Merge(defaults, defaults).Success?
    ensures Same(Merge(defaults, defaults).value, defaults)
  {
    MergeSelfMergeable(defaults);
    var r := Merge(defaults, defaults).value;
    forall k | k in defaults.entries ensures Same(r.entries[k], defaults.entries[k]) {
      var d := defaults.entries[k];
      if d.Node? {
        MergeSelf(d);
      } else {
        SameReflexive(d);
      }
    }
  }

  lemma {:induction false} MergeSelfMergeable(defaults: Conf)
    requires defaults.Node?
    ensures Mergeable(defaults, defaults)
  {
    forall k | k in defaults.entries && defaults.entries[k].Node?
      ensures Mergeable(defaults.entries[k], defaults.entries[k])
    {
      MergeSelfMergeable(defaults.entries[k]);
    }
  }

  /** A dictionary default facing a leaf override that is not a string
      fails exactly when the default has entries; facing a string it fails
      exactly when one of its keys occurs in the string, and otherwise comes
      back unchanged. */
  lemma {:induction false} LeafOverrideFails(defaults: Conf, text: string)
    requires defaults.Node?
    ensures Merge(defaults, Leaf(text, false)).Failure? <==> |defaults.entries| > 0
    ensures Merge(defaults, Leaf(text, true)).Failure? <==>
      exists k :: k in defaults.entries && Contains(text, k)
    ensures Merge(defaults, Leaf(text, true)).Success? ==>
      Merge(defaults, Leaf(text, true)).value.entries == defaults.entries
  {
  }

  /** The empty key occurs in every string, so a default holding it cannot
      take a string override. */
  lemma {:induction false} EmptyKeyMeetsEveryString(defaults: Conf, text: string)
    requires defaults.Node? && "" in defaults.entries
    ensures Merge(defaults, Leaf(text, true)).Failure?
  {
    assert Contains(text, "");
  }

  // ---------------------------------------------------------------- toDict

  /** `toDict(d)`: the same entries with every nested dictionary made a
      `Dict`. */
  function ToDict(c: Conf): (r: Conf)
    ensures c.Leaf? ==> r == c
    ensures c.Node? ==> r.Node? && r.attrAccess && r.entries.Keys == c.entries.Keys
  {
    match c
    case Leaf(_, _) => c
    case Node(e, _) => Node(map k | k in e :: ToDict(e[k]), true)
  }

  /** Every dictionary in the tree is a `Dict`. */
  predicate AllDicts(c: Conf) {
    match c
    case Leaf(_, _) => true
    case Node(e, flag) => flag && forall k :: k in e ==> AllDicts(e[k])
  }

  /** `toDict` keeps the content, makes every level a `Dict`, and changes
      nothing on a tree that is already all `Dict`s. */
  lemma {:induction false} ToDictFacts(c: Conf)
    ensures Same(ToDict(c), c)
    ensures AllDicts(ToDict(c))
    ensures AllDicts(c) ==> ToDict(c) == c
  {
    match c
    case Leaf(_, _) =>
    case Node(e, _) =>
      forall k | k in e ensures Same(ToDict(e[k]), e[k]) && AllDicts(ToDict(e[k]))
                            && (AllDicts(e[k]) ==> ToDict(e[k]) == e[k]) {
        ToDictFacts(e[k]);
      }
      if AllDicts(c) {
        assert ToDict(c).entries == e;
      }
  }

  /** Hence converting twice is converting once. */
  lemma {:induction false} ToDictIdempotent(c: Conf)
    ensures ToDict(ToDict(c)) == ToDict(c)
  {
    ToDictFacts(c);
    ToDictFacts(ToDict(c));
  }

  /** The configuration the application runs with: the defaults overlaid
      with the override, as attribute-readable `Dict`s throughout. */
  function Load(defaults: Conf, override: Option<Conf>): (r: Result<Conf, string>)
    requires defaults.Node?
    ensures r.Success? ==> AllDicts(r.value) && r.value.Node? && r.value.entries.Keys == defaults.entries.Keys
    ensures override.None? ==> r.Success? && Same(r.value, defaults)
    ensures override.Some? ==> (r.Success? <==> Mergeable(defaults, override.value))
    ensures override.Some? && r.Success? ==> Same(r.value, Merge(defaults, override.value).value)
  {
    ToDictFacts(defaults);
    match override
    case None => Success(ToDict(defaults))
    case Some(o) =>
      var m :- Merge(defaults, o);
      ToDictFacts(m);
      Success(ToDict(m))
  }
}
