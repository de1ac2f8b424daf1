/** The configurations of the test suite's fixtures, and the outcome the
    validator gives each of them. */
module PackWebExamples {
  import opened Wrappers
  import opened Json
  import opened PackWeb
  import opened PackWebSpec

  /** A configuration with exactly the two keys, `packages` first. */
  function Config(packages: Value, owners: Value): Value {
    Obj([("packages", packages), ("owners", owners)])
  }

  const GoodArray: Value := Config(
    Arr([Str("pack1"), Str("pack2"), Str("pack3")]),
    Arr([Str("alice"), Str("bob")]))

  const GoodObject: Value := Config(
    Obj([("group1", Arr([Str("pack1"), Str("pack2")])), ("group2", Arr([Str("pack3"), Str("pack2")]))]),
    Obj([("group1", Arr([Str("alice"), Str("bob")])), ("group2", Arr([Str("alice"), Str("charles")]))]))

  const Mochawait: Value := Config(Arr([Str("mochawait")]), Arr([Str("jlipps")]))

  const BadTopLevel1: Value := Arr([])
  const BadTopLevel2: Value := Str("foo")
  const BadTopLevel3: Value := Obj([("packages", Arr([Str("pack1")]))])
  const BadTopLevel4: Value := Obj([("owners", Arr([Str("alice")]))])

  const BadPackages1: Value := Config(Str("foo"), Arr([Str("alice")]))
  const BadPackages2: Value := Config(Arr([]), Arr([Str("alice")]))
  const BadPackages3: Value := Config(Obj([("group1", Str("pack1"))]), Arr([Str("alice")]))
  const BadPackages4: Value := Config(Obj([("group1", Arr([]))]), Arr([Str("alice")]))

  const BadOwners1: Value := Config(Arr([Str("pack1")]), Arr([]))
  const BadOwners2: Value := Config(Arr([Str("pack1")]), Obj([("group1", Str("alice"))]))

  const BadGroups1: Value := Config(Obj([("group1", Arr([Str("pack1")]))]), Obj([("group2", Arr([Str("alice")]))]))

  lemma ConfigFields(packages: Value, owners: Value)
    ensures Field(Config(packages, owners), Packages) == Some(packages)
    ensures Field(Config(packages, owners), Owners) == Some(owners)
  {
    var entries := Config(packages, owners).entries;
    assert entries[1..] == [("owners", owners)];
    assert Lookup(entries[1..], "owners") == Some(owners);
    assert entries[0].0 != "owners";
  }

  /** Both keys of a two-key configuration are well shaped; the validator
      then only compares the declared groups. */
  lemma WellShapedConfig(packages: Value, owners: Value)
    requires WellShaped(packages) && WellShaped(owners)
    ensures var p := DeclaredGroups(packages);
            var o := DeclaredGroups(owners);
            ValidateConfig(Some(Config(packages, owners))) ==
              if exists g :: g in p && g !in o then Failure(GroupMismatch(p, o)) else Success(p)
  {
    ConfigFields(packages, owners);
    ValidateWellShaped(Config(packages, owners));
  }

  /** The first key of a two-key configuration fails on its own. */
  lemma BadPackagesConfig(packages: Value, owners: Value)
    requires KeyGroups(Packages, Some(packages)).Failure?
    ensures ValidateConfig(Some(Config(packages, owners))) == Failure(KeyGroups(Packages, Some(packages)).error)
  {
    ConfigFields(packages, owners);
  }

  /** The second key of a two-key configuration fails after the first
      passed. */
  lemma BadOwnersConfig(packages: Value, owners: Value)
    requires KeyGroups(Packages, Some(packages)).Success?
    requires KeyGroups(Owners, Some(owners)).Failure?
    ensures ValidateConfig(Some(Config(packages, owners))) == Failure(KeyGroups(Owners, Some(owners)).error)
  {
    ConfigFields(packages, owners);
  }

  lemma FlatFixturesAccepted()
    ensures ValidateConfig(Some(GoodArray)) == Success(["all"])
    ensures ValidateConfig(Some(Mochawait)) == Success(["all"])
  {
    WellShapedConfig(Arr([Str("pack1"), Str("pack2"), Str("pack3")]), Arr([Str("alice"), Str("bob")]));
    WellShapedConfig(Arr([Str("mochawait")]), Arr([Str("jlipps")]));
  }

  lemma GroupedFixtureAccepted()
    ensures ValidateConfig(Some(GoodObject)) == Success(["group1", "group2"])
    ensures New(Some(GoodObject)) == Success(Instance(["group1", "group2"], GoodObject))
  {
    var p := GoodObject.entries[0].1;
    var o := GoodObject.entries[1].1;
    assert WellShaped(p) && WellShaped(o);
    assert DeclaredGroups(p) == ["group1", "group2"];
    assert DeclaredGroups(o) == ["group1", "group2"];
    WellShapedConfig(p, o);
  }

  lemma TopLevelFixturesRejected()
    ensures New(None) == Failure(NoConfig)
    ensures ValidateConfig(Some(BadTopLevel1)) == Failure(MissingKey(Packages))
    ensures ValidateConfig(Some(BadTopLevel2)) == Failure(NotAnObject)
    ensures ValidateConfig(Some(BadTopLevel3)) == Failure(MissingKey(Owners))
    ensures ValidateConfig(Some(BadTopLevel4)) == Failure(MissingKey(Packages))
  {
    assert Get(BadTopLevel3, "owners") == None;
    assert Get(BadTopLevel4, "packages") == None;
  }

  lemma PackagesFixturesRejected()
    ensures ValidateConfig(Some(BadPackages1)) == Failure(WrongShape(Packages))
    ensures ValidateConfig(Some(BadPackages2)) == Failure(WrongShape(Packages))
    ensures ValidateConfig(Some(BadPackages3)) == Failure(BadGroup(Packages, "group1"))
    ensures ValidateConfig(Some(BadPackages4)) == Failure(BadGroup(Packages, "group1"))
  {
    BadPackagesConfig(Str("foo"), Arr([Str("alice")]));
    BadPackagesConfig(Arr([]), Arr([Str("alice")]));
    BadPackagesConfig(Obj([("group1", Str("pack1"))]), Arr([Str("alice")]));
    BadPackagesConfig(Obj([("group1", Arr([]))]), Arr([Str("alice")]));
  }

  lemma OwnersFixturesRejected()
    ensures ValidateConfig(Some(BadOwners1)) == Failure(WrongShape(Owners))
    ensures ValidateConfig(Some(BadOwners2)) == Failure(BadGroup(Owners, "group1"))
  {
    BadOwnersConfig(Arr([Str("pack1")]), Arr([]));
    BadOwnersConfig(Arr([Str("pack1")]), Obj([("group1", Str("alice"))]));
  }

  lemma GroupFixturesRejected()
    ensures ValidateConfig(Some(BadGroups1)) == Failure(GroupMismatch(["group1"], ["group2"]))
  {
    var p := BadGroups1.entries[0].1;
    var o := BadGroups1.entries[1].1;
    assert DeclaredGroups(p) == ["group1"];
    assert DeclaredGroups(o) == ["group2"];
    WellShapedConfig(p, o);
  }

  /** The group test only asks that every `packages` group be an `owners`
      group: extra `owners` groups pass... */
  lemma ExtraOwnersGroupAccepted()
    ensures ValidateConfig(Some(Config(
      Obj([("g1", Arr([Str("pack1")]))]),
      Obj([("g1", Arr([Str("alice")])), ("g2", Arr([Str("bob")]))])))) == Success(["g1"])
  {
    var one := Obj([("g1", Arr([Str("pack1")]))]);
    var two := Obj([("g1", Arr([Str("alice")])), ("g2", Arr([Str("bob")]))]);
    assert DeclaredGroups(one) == ["g1"];
    assert DeclaredGroups(two) == ["g1", "g2"];
    WellShapedConfig(one, two);
  }

  /** ...while extra `packages` groups do not. */
  lemma ExtraPackagesGroupRejected()
    ensures ValidateConfig(Some(Config(
      Obj([("g1", Arr([Str("pack1")])), ("g2", Arr([Str("pack2")]))]),
      Obj([("g1", Arr([Str("alice")]))])))) == Failure(GroupMismatch(["g1", "g2"], ["g1"]))
  {
    var two := Obj([("g1", Arr([Str("pack1")])), ("g2", Arr([Str("pack2")]))]);
    var one := Obj([("g1", Arr([Str("alice")]))]);
    assert DeclaredGroups(two) == ["g1", "g2"];
    assert DeclaredGroups(one) == ["g1"];
    assert "g2" in DeclaredGroups(two) && "g2" !in DeclaredGroups(one);
    WellShapedConfig(two, one);
  }

  /** A flat list is the group "all": it matches a map with a group "all",
      and no other map. */
  lemma FlatListIsGroupAll()
    ensures ValidateConfig(Some(Config(Arr([Str("pack1")]), Obj([("all", Arr([Str("alice")]))])))) == Success(["all"])
    ensures ValidateConfig(Some(Config(Arr([Str("pack1")]), Obj([("g1", Arr([Str("alice")]))]))))
      == Failure(GroupMismatch(["all"], ["g1"]))
  {
    var flat := Arr([Str("pack1")]);
    var all := Obj([("all", Arr([Str("alice")]))]);
    var g1 := Obj([("g1", Arr([Str("alice")]))]);
    assert DeclaredGroups(all) == ["all"];
    assert DeclaredGroups(g1) == ["g1"];
    WellShapedConfig(flat, all);
    assert "all" in DeclaredGroups(flat) && "all" !in DeclaredGroups(g1);
    WellShapedConfig(flat, g1);
  }

  /** Lodash sizes an object by its `length` property when that is a valid
      array length. A map whose `length` is 0 therefore counts as empty and
      is rejected as misshapen, although it also holds a good group. */
  lemma ZeroLengthMapMisshapen()
    ensures ValidateConfig(Some(Config(
      Obj([("length", Num(0)), ("g1", Arr([Str("pack1")]))]),
      Arr([Str("alice")])))) == Failure(WrongShape(Packages))
  {
    var packages := Obj([("length", Num(0)), ("g1", Arr([Str("pack1")]))]);
    assert Lookup(packages.entries, "length") == Some(Num(0));
    BadPackagesConfig(packages, Arr([Str("alice")]));
  }

  /** With a non-zero `length` the map is walked like any other map. Here
      `length`, which holds a number, is its first bad group and is
      reported. */
  lemma NonZeroLengthIsBadGroup()
    ensures ValidateConfig(Some(Config(
      Obj([("g1", Arr([Str("pack1")])), ("length", Num(2))]),
      Arr([Str("alice")])))) == Failure(BadGroup(Packages, "length"))
  {
    var packages := Obj([("g1", Arr([Str("pack1")])), ("length", Num(2))]);
    assert Lookup(packages.entries[1..], "length") == Some(Num(2));
    assert Size(packages) == 2;
    assert CollectGroups(Packages, packages.entries[1..]) == Failure(BadGroup(Packages, "length"));
    BadPackagesConfig(packages, Arr([Str("alice")]));
  }
}
