/** A declarative description of the configurations `PackWeb` accepts and of
    the error each rejected configuration gets, each outcome stated as a
    condition on the input rather than as a sequence of steps, and the lemmas
    that tie the validator to it. */
module PackWebSpec {
  import opened Wrappers
  import opened Json
  import opened PackWeb

  /** The four falsy JSON values. */
  const FalsyValues: seq<Value> := [Null, Bool(false), Num(0), Str("")]

  /** A property that is missing or holds a falsy value. */
  predicate Unset(x: Option<Value>) {
    x.None? || x.value in FalsyValues
  }

  /** An array or an object: the truthy values whose `typeof` is 'object'. */
  predicate IsContainer(v: Value) {
    v.Arr? || v.Obj?
  }

  /** A group of a map must hold at least one element. */
  predicate GoodGroup(v: Value) {
    v.Arr? && v.items != []
  }

  /** A usable `packages` or `owners` value: a non-empty array, or a
      non-empty map all of whose groups are good. */
  predicate WellShaped(v: Value) {
    match v
    case Arr(items) => items != []
    case Obj(entries) => entries != [] && forall i :: 0 <= i < |entries| ==> GoodGroup(entries[i].1)
    case _ => false
  }

  /** An object lodash's `_.size` counts as empty: it has no key, or its
      `length` property holds 0 and makes it an empty array-like. */
  predicate ZeroSized(entries: seq<(string, Value)>) {
    entries == [] || Lookup(entries, "length") == Some(Num(0))
  }

  /** A map the validator walks group by group. */
  predicate GroupMap(v: Value) {
    v.Obj? && !ZeroSized(v.entries)
  }

  /** A value that is set, but is neither a non-empty array nor a map of
      non-zero size: the validator does not even look inside it. */
  predicate Misshapen(v: Value) {
    !(v.Arr? && v.items != []) && !GroupMap(v)
  }

  /** Index `i` holds the first group of `entries` that is not good. */
  predicate FirstBadGroup(entries: seq<(string, Value)>, i: int) {
    && 0 <= i < |entries|
    && !GoodGroup(entries[i].1)
    && forall j :: 0 <= j < i ==> GoodGroup(entries[j].1)
  }

  /** The group names a well-shaped value declares: the single group "all"
      for an array, the map's keys in order otherwise. */
  function DeclaredGroups(v: Value): seq<string>
    requires WellShaped(v)
  {
    if v.Arr? then ["all"] else Keys(v.entries)
  }

  function Field(config: Value, k: Key): Option<Value> {
    Get(config, k.Name())
  }

  predicate FieldWellShaped(config: Value, k: Key) {
    Field(config, k).Some? && WellShaped(Field(config, k).value)
  }

  /** The validator looks at `owners` only once `packages` has passed. */
  predicate Reaches(config: Value, k: Key) {
    k == Owners ==> FieldWellShaped(config, Packages)
  }

  /** The configurations the validator accepts: a container with two
      well-shaped keys, every `packages` group also being an `owners` group.
      Extra `owners` groups are allowed. */
  predicate Accepts(config: Option<Value>) {
    && config.Some?
    && IsContainer(config.value)
    && FieldWellShaped(config.value, Packages)
    && FieldWellShaped(config.value, Owners)
    && forall g :: g in DeclaredGroups(Field(config.value, Packages).value) ==>
                   g in DeclaredGroups(Field(config.value, Owners).value)
  }

  // ---------------------------------------------------------------------
  // One key
  // ---------------------------------------------------------------------

  /** A key passes exactly when it is well shaped, and then yields the
      groups it declares. */
  lemma KeyGroupsWellShaped(k: Key, val: Option<Value>)
    ensures KeyGroups(k, val).Success? <==> val.Some? && WellShaped(val.value)
    ensures KeyGroups(k, val).Success? ==> KeyGroups(k, val).value == DeclaredGroups(val.value)
  {
    if val.Some? && val.value.Obj? {
      var entries := val.value.entries;
      assert (forall i :: 0 <= i < |entries| ==> IsNonEmptyArray(entries[i].1))
         <==> (forall i :: 0 <= i < |entries| ==> GoodGroup(entries[i].1));
    }
  }

  /** A key is rejected without looking inside when it is set but is
      neither a non-empty array nor a non-empty map. */
  lemma KeyGroupsMisshapen(k: Key, val: Option<Value>)
    ensures KeyGroups(k, val) == Failure(WrongShape(k)) <==> !Unset(val) && Misshapen(val.value)
  {
    if val.Some? && GroupMap(val.value) {
      var r := CollectGroups(k, val.value.entries);
      assert KeyGroups(k, val) == r;
      assert r.Failure? ==> r.error.BadGroup?;
    }
  }

  lemma FirstBadGroupUnique(entries: seq<(string, Value)>, i: int, i': int)
    requires FirstBadGroup(entries, i) && FirstBadGroup(entries, i')
    ensures i == i'
  {
  }

  /** The group loop reports exactly the first bad group. */
  lemma CollectGroupsFirstBad(k: Key, entries: seq<(string, Value)>, g: string)
    ensures CollectGroups(k, entries) == Failure(BadGroup(k, g)) <==>
      exists i :: FirstBadGroup(entries, i) && entries[i].0 == g
  {
    var r := CollectGroups(k, entries);
    if r.Failure? {
      var i :| 0 <= i < |entries| && r.error == BadGroup(k, entries[i].0)
        && !IsNonEmptyArray(entries[i].1)
        && forall j :: 0 <= j < i ==> IsNonEmptyArray(entries[j].1);
      assert FirstBadGroup(entries, i);
      if exists i' :: FirstBadGroup(entries, i') && entries[i'].0 == g {
        var i' :| FirstBadGroup(entries, i') && entries[i'].0 == g;
        FirstBadGroupUnique(entries, i, i');
      }
    }
  }

  /** In a map of non-zero size, the key's error is the first bad group. */
  lemma KeyGroupsBadGroup(k: Key, val: Option<Value>, g: string)
    ensures KeyGroups(k, val) == Failure(BadGroup(k, g)) <==>
      && val.Some? && GroupMap(val.value)
      && exists i :: FirstBadGroup(val.value.entries, i) && val.value.entries[i].0 == g
  {
    if val.Some? && GroupMap(val.value) {
      assert KeyGroups(k, val) == CollectGroups(k, val.value.entries);
      CollectGroupsFirstBad(k, val.value.entries, g);
    }
  }

  /** `_.difference(a, b).length` is zero exactly when every element of `a`
      occurs in `b`: the group test is one-directional. */
  lemma DifferenceEmpty(a: seq<string>, b: seq<string>)
    ensures |Difference(a, b)| == 0 <==> forall g :: g in a ==> g in b
  {
    var d := Difference(a, b);
    if |d| > 0 {
      assert d[0] in d;
    }
  }

  // ---------------------------------------------------------------------
  // The whole configuration
  // ---------------------------------------------------------------------

  /** Once both keys are well shaped, only the group test remains. */
  lemma ValidateWellShaped(c: Value)
    requires IsContainer(c) && FieldWellShaped(c, Packages) && FieldWellShaped(c, Owners)
    ensures var p := DeclaredGroups(Field(c, Packages).value);
            var o := DeclaredGroups(Field(c, Owners).value);
            ValidateConfig(Some(c)) ==
              if exists g :: g in p && g !in o then Failure(GroupMismatch(p, o)) else Success(p)
  {
    KeyGroupsWellShaped(Packages, Field(c, Packages));
    KeyGroupsWellShaped(Owners, Field(c, Owners));
    DifferenceEmpty(DeclaredGroups(Field(c, Packages).value), DeclaredGroups(Field(c, Owners).value));
  }

  /** The validator accepts exactly the configurations `Accepts` describes
      and returns the group names of `packages`. */
  lemma ValidateConfigAccepts(config: Option<Value>)
    ensures ValidateConfig(config).Success? <==> Accepts(config)
    ensures ValidateConfig(config).Success? ==>
      ValidateConfig(config).value == DeclaredGroups(Field(config.value, Packages).value)
  {
    if config.Some? && IsContainer(config.value) {
      var c := config.value;
      KeyGroupsWellShaped(Packages, Field(c, Packages));
      KeyGroupsWellShaped(Owners, Field(c, Owners));
      if FieldWellShaped(c, Packages) && FieldWellShaped(c, Owners) {
        DifferenceEmpty(DeclaredGroups(Field(c, Packages).value), DeclaredGroups(Field(c, Owners).value));
      }
    }
  }

  /** A missing argument or a falsy configuration is the first thing
      rejected. */
  lemma RejectsMissingConfig(config: Option<Value>)
    ensures ValidateConfig(config) == Failure(NoConfig) <==> Unset(config)
  {
  }

  /** `true`, a non-zero number or a non-empty string is not an object. */
  lemma RejectsScalarConfig(config: Option<Value>)
    ensures ValidateConfig(config) == Failure(NotAnObject) <==>
      config.Some? && !Unset(config) && !IsContainer(config.value)
  {
  }

  /** An array passes the object test, but has no `packages` property. */
  lemma ArrayConfigLacksPackages(items: seq<Value>)
    ensures ValidateConfig(Some(Arr(items))) == Failure(MissingKey(Packages))
  {
  }

  /** A key that is missing or falsy is reported by name; `owners` only once
      `packages` has passed. */
  lemma RejectsMissingKey(config: Option<Value>, k: Key)
    ensures ValidateConfig(config) == Failure(MissingKey(k)) <==>
      config.Some? && IsContainer(config.value) && Reaches(config.value, k)
      && Unset(Field(config.value, k))
  {
    if config.Some? && IsContainer(config.value) {
      var c := config.value;
      KeyGroupsWellShaped(Packages, Field(c, Packages));
      if k == Owners && FieldWellShaped(c, Packages) {
        assert KeyGroups(Packages, Field(c, Packages)).Success?;
      }
    }
  }

  /** A key holding a scalar, an empty array, an empty map or an object
      whose `length` is 0 is rejected. */
  lemma RejectsMisshapenKey(config: Option<Value>, k: Key)
    ensures ValidateConfig(config) == Failure(WrongShape(k)) <==>
      config.Some? && IsContainer(config.value) && Reaches(config.value, k)
      && !Unset(Field(config.value, k)) && Misshapen(Field(config.value, k).value)
  {
    if config.Some? && IsContainer(config.value) {
      var c := config.value;
      KeyGroupsWellShaped(Packages, Field(c, Packages));
      KeyGroupsMisshapen(Packages, Field(c, Packages));
      KeyGroupsMisshapen(Owners, Field(c, Owners));
    }
  }

  /** In a map of non-zero size, the first group in enumeration order that
      does not hold a non-empty array is reported together with its key. */
  lemma RejectsBadGroup(config: Option<Value>, k: Key, g: string)
    ensures ValidateConfig(config) == Failure(BadGroup(k, g)) <==>
      && config.Some? && IsContainer(config.value) && Reaches(config.value, k)
      && Field(config.value, k).Some? && GroupMap(Field(config.value, k).value)
      && var entries := Field(config.value, k).value.entries;
         exists i :: FirstBadGroup(entries, i) && entries[i].0 == g
  {
    if config.Some? && IsContainer(config.value) {
      var c := config.value;
      KeyGroupsWellShaped(Packages, Field(c, Packages));
      KeyGroupsBadGroup(Packages, Field(c, Packages), g);
      KeyGroupsBadGroup(Owners, Field(c, Owners), g);
    }
  }

  /** Two well-shaped keys are rejected when some `packages` group is not an
      `owners` group; the error carries both lists of group names. */
  lemma RejectsGroupMismatch(config: Option<Value>, p: seq<string>, o: seq<string>)
    ensures ValidateConfig(config) == Failure(GroupMismatch(p, o)) <==>
      && config.Some? && IsContainer(config.value)
      && FieldWellShaped(config.value, Packages) && FieldWellShaped(config.value, Owners)
      && p == DeclaredGroups(Field(config.value, Packages).value)
      && o == DeclaredGroups(Field(config.value, Owners).value)
      && exists g :: g in p && g !in o
  {
    if config.Some? && IsContainer(config.value) {
      var c := config.value;
      if FieldWellShaped(c, Packages) && FieldWellShaped(c, Owners) {
        ValidateWellShaped(c);
      } else {
        KeyGroupsWellShaped(Packages, Field(c, Packages));
        KeyGroupsWellShaped(Owners, Field(c, Owners));
      }
    }
  }

  /** A bad `packages` key is reported whatever `owners` holds. */
  lemma PackagesCheckedFirst(config: Value)
    requires IsContainer(config) && !FieldWellShaped(config, Packages)
    ensures ValidateConfig(Some(config)).Failure?
    ensures ValidateConfig(Some(config)).error.MissingKey?
         || ValidateConfig(Some(config)).error.WrongShape?
         || ValidateConfig(Some(config)).error.BadGroup?
    ensures ValidateConfig(Some(config)).error.key == Packages
  {
    KeyGroupsWellShaped(Packages, Field(config, Packages));
  }

  // ---------------------------------------------------------------------
  // Flat lists and group maps
  // ---------------------------------------------------------------------

  /** Two flat lists share the group "all" and are accepted. */
  lemma FlatAgainstFlat(config: Value)
    requires config.Obj?
    requires Field(config, Packages).Some? && GoodGroup(Field(config, Packages).value)
    requires Field(config, Owners).Some? && GoodGroup(Field(config, Owners).value)
    ensures ValidateConfig(Some(config)) == Success(["all"])
  {
  }

  /** Flat `packages` against grouped `owners` passes only when `owners` has
      a group named "all". */
  lemma FlatAgainstGrouped(config: Value)
    requires config.Obj?
    requires Field(config, Packages).Some? && GoodGroup(Field(config, Packages).value)
    requires Field(config, Owners).Some? && Field(config, Owners).value.Obj?
    requires WellShaped(Field(config, Owners).value)
    ensures ValidateConfig(Some(config)).Success? <==> "all" in Keys(Field(config, Owners).value.entries)
  {
    ValidateConfigAccepts(Some(config));
  }

  /** Grouped `packages` against flat `owners` passes only when every
      `packages` group is named "all". */
  lemma GroupedAgainstFlat(config: Value)
    requires config.Obj?
    requires Field(config, Packages).Some? && Field(config, Packages).value.Obj?
    requires WellShaped(Field(config, Packages).value)
    requires Field(config, Owners).Some? && GoodGroup(Field(config, Owners).value)
    ensures ValidateConfig(Some(config)).Success? <==>
      forall i :: 0 <= i < |Field(config, Packages).value.entries| ==>
        Field(config, Packages).value.entries[i].0 == "all"
  {
    ValidateConfigAccepts(Some(config));
    var entries := Field(config, Packages).value.entries;
    var ks := Keys(entries);
    if forall i :: 0 <= i < |entries| ==> entries[i].0 == "all" {
      forall g | g in ks ensures g in ["all"] {
        var i :| 0 <= i < |ks| && ks[i] == g;
      }
    }
    if forall g :: g in ks ==> g in ["all"] {
      forall i | 0 <= i < |entries| ensures entries[i].0 == "all" {
        assert ks[i] in ks;
      }
    }
  }

  /** On success the result is non-empty, and it repeats no name when the
      `packages` map repeats no key. */
  lemma AcceptedGroupsDistinct(config: Option<Value>)
    requires ValidateConfig(config).Success?
    ensures ValidateConfig(config).value != []
    ensures Field(config.value, Packages).value.Obj? && UniqueKeys(Field(config.value, Packages).value.entries) ==>
      forall i, j :: 0 <= i < j < |ValidateConfig(config).value| ==>
        ValidateConfig(config).value[i] != ValidateConfig(config).value[j]
  {
    ValidateConfigAccepts(config);
  }
}
