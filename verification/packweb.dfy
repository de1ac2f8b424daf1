/** The `PackWeb` class: its constructor and the configuration validator it
    runs. A configuration names the packages to manage and their owners,
    either as flat lists or as maps from group names to lists. */
module PackWeb {
  import opened Wrappers
  import opened Json
  import JsonText
  import opened Strings

  /** The two configuration keys, in the order the validator visits them. */
  datatype Key = Packages | Owners {
    function Name(): string {
      match this
      case Packages => "packages"
      case Owners => "owners"
    }
  }

  /** One constructor per error the validator throws. */
  datatype ConfigError =
    | NoConfig
    | NotAnObject
    | MissingKey(key: Key)
    | WrongShape(key: Key)
    | BadGroup(key: Key, group: string)
    | GroupMismatch(packageGroups: seq<string>, ownerGroups: seq<string>)

  /** The message of the thrown `Error`, assembled from the same pieces as
      the template strings of lib/packweb.js. Every message names what it is
      about: the key, the group, or both lists of group names. */
  function Message(e: ConfigError): (r: string)
    ensures e.MissingKey? || e.WrongShape? || e.BadGroup? ==> Contains(r, e.key.Name())
    ensures e.BadGroup? ==> Contains(r, e.group)
    ensures e.GroupMismatch? ==> Contains(r, JsonText.Stringify(e.packageGroups))
    ensures e.GroupMismatch? ==> Contains(r, JsonText.Stringify(e.ownerGroups))
  {
    match e
    case NoConfig => FixedText(e)
    case NotAnObject => FixedText(e)
    case MissingKey(k) =>
      ContainsInMiddle(MissingKeyHead, k.Name(), "' key");
      FixedText(e)
    case WrongShape(k) =>
      ContainsInMiddle([], k.Name(), WrongShapeLead);
      assert [] + k.Name() + WrongShapeLead == k.Name() + WrongShapeLead;
      ContainsExtended(k.Name() + WrongShapeLead, "of groups", k.Name());
      FixedText(e)
    case BadGroup(k, g) =>
      ContainsInMiddle("'", k.Name(), "' group '");
      ContainsExtended(BadGroupHead(k), g, k.Name());
      ContainsExtended(BadGroupHead(k) + g, BadGroupTail, k.Name());
      ContainsInMiddle(BadGroupHead(k), g, BadGroupTail);
      BadGroupHead(k) + g + BadGroupTail
    case GroupMismatch(p, o) =>
      var sp, so := JsonText.Stringify(p), JsonText.Stringify(o);
      ContainsInMiddle(MismatchLead, sp, MismatchMiddle);
      ContainsExtended(MismatchLead + sp + MismatchMiddle, so, sp);
      ContainsAtEnd(MismatchLead + sp + MismatchMiddle, so);
      MismatchLead + sp + MismatchMiddle + so
  }

  /** The messages of the errors that carry neither a group name nor a list
      of groups. */
  function FixedText(e: ConfigError): string
    requires !e.BadGroup? && !e.GroupMismatch?
  {
    match e
    case NoConfig => "Please pass in a config object"
    case NotAnObject => "PackWeb config needs to be an object"
    case MissingKey(k) => MissingKeyHead + k.Name() + "' key"
    case WrongShape(k) => k.Name() + WrongShapeLead + "of groups"
  }

  const MissingKeyHead: string := "PackWeb config needs to have '"
  const WrongShapeLead: string := " needs to be an array of strings or hash "

  /** A bad-group message is this head, the group name and the tail. */
  function BadGroupHead(k: Key): string {
    "'" + k.Name() + "' group '"
  }

  const BadGroupTail: string := "' must be an array"

  const MismatchLead: string := "Packages and owners must have the same groups. Your packages were "
  const MismatchMiddle: string := " and owners were "

  /** The single implicit group of a flat list. */
  const FlatGroup: string := "all"

  /** `v instanceof Array && v.length > 0`. */
  predicate IsNonEmptyArray(v: Value) {
    v.Arr? && |v.items| > 0
  }

  /** The loop over the groups of a map: every group must hold a non-empty
      array; the group names are collected in enumeration order, and the
      first group that breaks the rule is reported. */
  function CollectGroups(key: Key, entries: seq<(string, Value)>): (r: Result<seq<string>, ConfigError>)
    ensures r.Success? <==> forall i :: 0 <= i < |entries| ==> IsNonEmptyArray(entries[i].1)
    ensures r.Success? ==> r.value == Keys(entries)
    ensures r.Failure? ==>
      exists i :: 0 <= i < |entries| && r.error == BadGroup(key, entries[i].0)
        && !IsNonEmptyArray(entries[i].1)
        && forall j :: 0 <= j < i ==> IsNonEmptyArray(entries[j].1)
  {
    if entries == [] then Success([])
    else if !IsNonEmptyArray(entries[0].1) then Failure(BadGroup(key, entries[0].0))
    else
      var rest := CollectGroups(key, entries[1..]);
      assert Keys(entries) == [entries[0].0] + Keys(entries[1..]);
      if rest.Failure? then
        ghost var i :| 0 <= i < |entries| - 1 && rest.error == BadGroup(key, entries[1..][i].0)
          && !IsNonEmptyArray(entries[1..][i].1)
          && forall j :: 0 <= j < i ==> IsNonEmptyArray(entries[1..][j].1);
        assert forall j :: 0 <= j < i + 1 ==> IsNonEmptyArray(entries[j].1) by {
          forall j | 0 <= j < i + 1 ensures IsNonEmptyArray(entries[j].1) {
            if j > 0 { assert entries[j] == entries[1..][j - 1]; }
          }
        }
        rest
      else
        Success([entries[0].0] + rest.value)
  }

  /** The group names one configuration key declares: `["all"]` for a
      non-empty array, the keys of a non-empty map whose groups are all
      non-empty arrays, and an error naming the key otherwise. */
  function KeyGroups(key: Key, val: Option<Value>): (r: Result<seq<string>, ConfigError>)
    ensures r == Failure(MissingKey(key)) <==> Absent(val)
    ensures r.Success? ==> r.value != []
    ensures r.Failure? ==> r.error.MissingKey? || r.error.WrongShape? || r.error.BadGroup?
    ensures r.Failure? ==> r.error.key == key
  {
    if Absent(val) then Failure(MissingKey(key))
    else
      var v := val.value;
      var isArray := IsNonEmptyArray(v);
      var isObj := !isArray && IsObjectType(v) && Size(v) > 0;
      if !(isArray || isObj) then Failure(WrongShape(key))
      else if isArray then Success([FlatGroup])
      else CollectGroups(key, v.entries)
  }

  /** Lodash's `_.difference(a, b)`: the elements of `a`, in order and with
      repetitions, that do not occur in `b`. */
  function Difference(a: seq<string>, b: seq<string>): (r: seq<string>)
    ensures forall x :: x in r <==> x in a && x !in b
    ensures |r| <= |a|
  {
    if a == [] then []
    else (if a[0] in b then [] else [a[0]]) + Difference(a[1..], b)
  }

  /** `PackWeb.validateConfig`: checks the configuration and returns the
      group names of its `packages` key. `None` is a missing argument. */
  function ValidateConfig(config: Option<Value>): (r: Result<seq<string>, ConfigError>)
    ensures r == Failure(NoConfig) <==> Absent(config)
    ensures r.Success? ==> r.value != []
    ensures r.Success? ==>
      && KeyGroups(Owners, Get(config.value, Owners.Name())).Success?
      && forall g :: g in r.value ==> g in KeyGroups(Owners, Get(config.value, Owners.Name())).value
    ensures r.Failure? && r.error.GroupMismatch? ==>
      exists g :: g in r.error.packageGroups && g !in r.error.ownerGroups
  {
    if Absent(config) then Failure(NoConfig)
    else if !IsObjectType(config.value) then Failure(NotAnObject)
    else
      var packages :- KeyGroups(Packages, Get(config.value, Packages.Name()));
      var owners :- KeyGroups(Owners, Get(config.value, Owners.Name()));
      var missing := Difference(packages, owners);
      if |missing| > 0 then
        assert missing[0] in missing;
        Failure(GroupMismatch(packages, owners))
      else
        assert missing == [];
        Success(packages)
  }

  /** The state of a constructed `PackWeb` object. */
  datatype Instance = Instance(groups: seq<string>, config: Value)

  /** `new PackWeb(config)`: validates, then keeps the group names and the
      configuration itself. */
  function New(config: Option<Value>): (r: Result<Instance, ConfigError>)
    ensures r.Success? <==> ValidateConfig(config).Success?
    ensures r.Success? ==> config == Some(r.value.config)
    ensures r.Success? ==> r.value.groups == ValidateConfig(config).value
    ensures r.Failure? ==> r.error == ValidateConfig(config).error
  {
    var groups :- ValidateConfig(config);
    Success(Instance(groups, config.value))
  }
}
