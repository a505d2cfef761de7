// The `Remove-AzureLoadBalancerFrontendIpConfig` command: looks up the one
// frontend IP configuration of a load balancer whose name equals the given
// name ignoring case, removes it from the load balancer's list in place, and
// emits the same load balancer.
module RemoveFrontendIpConfig {
  import opened Wrappers
  import opened CaseInsensitive

  /** A frontend IP configuration: a named child resource of a load balancer. */
  datatype FrontendIpConfiguration = FrontendIpConfiguration(name: Option<string>, id: Option<string>)

  /** The properties object of a load balancer, holding its ordered list of
      frontend IP configurations. */
  class LoadBalancerProperties {
    var frontendIpConfigurations: seq<FrontendIpConfiguration>

    constructor (configurations: seq<FrontendIpConfiguration>)
      ensures frontendIpConfigurations == configurations
    {
      frontendIpConfigurations := configurations;
    }
  }

  /** A load balancer, as passed to the command and emitted by it. */
  class LoadBalancer {
    var properties: LoadBalancerProperties

    constructor (configurations: seq<FrontendIpConfiguration>)
      ensures fresh(properties) && properties.frontendIpConfigurations == configurations
    {
      properties := new LoadBalancerProperties(configurations);
    }
  }

  /** What `SingleOrDefault` finds: no match (it returns null), the one match,
      or more than one (it throws). */
  datatype LookupResult = NoMatch | SingleMatch(index: nat) | MultipleMatches

  /** The exception `SingleOrDefault` throws when several entries match. */
  datatype RemoveError = MoreThanOneMatch

  /** The lookup's predicate: the entry's name equals the given name ignoring
      case, where a null name equals a null name only. */
  predicate Matches(configuration: FrontendIpConfiguration, name: Option<string>)
  {
    NullableEqualsIgnoreCase(configuration.name, name)
  }

  /** The outcome of `SingleOrDefault` on the list, as a specification. */
  function Lookup(configurations: seq<FrontendIpConfiguration>, name: Option<string>): (r: LookupResult)
    ensures r.NoMatch? <==> forall i :: 0 <= i < |configurations| ==> !Matches(configurations[i], name)
    ensures r.SingleMatch? ==>
      r.index < |configurations| && Matches(configurations[r.index], name)
      && forall j :: 0 <= j < |configurations| && j != r.index ==> !Matches(configurations[j], name)
    ensures r.MultipleMatches? ==>
      exists i, j :: 0 <= i < j < |configurations|
        && Matches(configurations[i], name) && Matches(configurations[j], name)
  {
    if configurations == [] then NoMatch
    else
      match Lookup(configurations[1..], name)
      case NoMatch =>
        if Matches(configurations[0], name) then SingleMatch(0) else NoMatch
      case SingleMatch(k) =>
        if Matches(configurations[0], name) then
          assert Matches(configurations[k + 1], name);
          MultipleMatches
        else SingleMatch(k + 1)
      case MultipleMatches =>
        var tail := configurations[1..];
        var i, j :| 0 <= i < j < |tail| && Matches(tail[i], name) && Matches(tail[j], name);
        assert tail[i] == configurations[i + 1] && tail[j] == configurations[j + 1];
        MultipleMatches
  }

  /** The scan behind `SingleOrDefault`: walks the list once and remembers
      the first match. This scan stops with the failure at the second match;
      a library that counts every match first reaches the same outcome, as
      the predicate is total on the entries modelled. */
  method SingleOrDefault(configurations: seq<FrontendIpConfiguration>, name: Option<string>)
    returns (r: LookupResult)
    ensures r == Lookup(configurations, name)
  {
    var found: Option<nat> := None;
    var i := 0;
    while i < |configurations|
      invariant 0 <= i <= |configurations|
      invariant found.None? ==> forall j :: 0 <= j < i ==> !Matches(configurations[j], name)
      invariant found.Some? ==>
        found.value < i && Matches(configurations[found.value], name)
        && forall j :: 0 <= j < i && j != found.value ==> !Matches(configurations[j], name)
    {
      if Matches(configurations[i], name) {
        if found.Some? {
          return MultipleMatches;
        }
        found := Some(i);
      }
      i := i + 1;
    }
    r := if found.None? then NoMatch else SingleMatch(found.value);
  }

  /** The list after the command, or the failure it ends with. */
  function Removed(configurations: seq<FrontendIpConfiguration>, name: Option<string>)
    : Result<seq<FrontendIpConfiguration>, RemoveError>
  {
    match Lookup(configurations, name)
    case NoMatch => Success(configurations)
    case SingleMatch(k) => Success(configurations[..k] + configurations[k + 1..])
    case MultipleMatches => Failure(MoreThanOneMatch)
  }

  /** The command body. The lookup runs first; when it finds the one match,
      that entry is removed from the list in place. Only the list field of
      the load balancer's properties changes, and the load balancer that
      came in is the one emitted. When the lookup throws, nothing changes
      and nothing is emitted. */
  method ExecuteCmdlet(loadBalancer: LoadBalancer, name: Option<string>)
    returns (emitted: Result<LoadBalancer, RemoveError>)
    modifies loadBalancer.properties`frontendIpConfigurations
    ensures loadBalancer.properties == old(loadBalancer.properties)
    ensures Removed(old(loadBalancer.properties.frontendIpConfigurations), name).Success? ==>
      emitted == Success(loadBalancer)
      && loadBalancer.properties.frontendIpConfigurations
         == Removed(old(loadBalancer.properties.frontendIpConfigurations), name).value
    ensures Removed(old(loadBalancer.properties.frontendIpConfigurations), name).Failure? ==>
      emitted == Failure(MoreThanOneMatch)
      && loadBalancer.properties.frontendIpConfigurations
         == old(loadBalancer.properties.frontendIpConfigurations)
  {
    var properties := loadBalancer.properties;
    var lookup := SingleOrDefault(properties.frontendIpConfigurations, name);
    match lookup
    case MultipleMatches =>
      emitted := Failure(MoreThanOneMatch);
    case NoMatch =>
      emitted := Success(loadBalancer);
    case SingleMatch(k) =>
      properties.frontendIpConfigurations :=
        properties.frontendIpConfigurations[..k] + properties.frontendIpConfigurations[k + 1..];
      emitted := Success(loadBalancer);
  }

  /** With no matching entry the list is left as it is. */
  lemma RemovedWithoutMatchIsUnchanged(configurations: seq<FrontendIpConfiguration>, name: Option<string>)
    requires forall i :: 0 <= i < |configurations| ==> !Matches(configurations[i], name)
    ensures Removed(configurations, name) == Success(configurations)
  {
  }

  /** With exactly one matching entry, that entry and nothing else is removed:
      the list is one shorter, the others keep their order, and no entry of
      the new list matches. */
  lemma RemovedDeletesTheOnlyMatch(configurations: seq<FrontendIpConfiguration>, name: Option<string>, k: nat)
    requires k < |configurations| && Matches(configurations[k], name)
    requires forall j :: 0 <= j < |configurations| && j != k ==> !Matches(configurations[j], name)
    ensures Removed(configurations, name).Success?
    ensures Removed(configurations, name).value == configurations[..k] + configurations[k + 1..]
    ensures |Removed(configurations, name).value| == |configurations| - 1
    ensures multiset(Removed(configurations, name).value) + multiset{configurations[k]}
            == multiset(configurations)
    ensures forall i :: 0 <= i < |Removed(configurations, name).value| ==>
              !Matches(Removed(configurations, name).value[i], name)
  {
    var rest := configurations[..k] + configurations[k + 1..];
    assert configurations == configurations[..k] + [configurations[k]] + configurations[k + 1..];
    forall i | 0 <= i < |rest|
      ensures !Matches(rest[i], name)
    {
      if i < k {
        assert rest[i] == configurations[i];
      } else {
        assert rest[i] == configurations[i + 1];
      }
    }
  }

  /** Two entries with the same name, ignoring case, make the command fail. */
  lemma RemovedFailsOnAmbiguousName(configurations: seq<FrontendIpConfiguration>, name: Option<string>, i: nat, j: nat)
    requires i < j < |configurations|
    requires Matches(configurations[i], name) && Matches(configurations[j], name)
    ensures Removed(configurations, name) == Failure(MoreThanOneMatch)
  {
  }

  /** Without a name, only an entry whose name is null matches. */
  lemma NullNameMatchesOnlyNullNames(configuration: FrontendIpConfiguration)
    ensures Matches(configuration, None) <==> configuration.name.None?
  {
  }

  /** Removing the same name a second time changes nothing. */
  lemma RemovedTwiceIsRemovedOnce(configurations: seq<FrontendIpConfiguration>, name: Option<string>)
    requires Removed(configurations, name).Success?
    ensures Removed(Removed(configurations, name).value, name) == Removed(configurations, name)
  {
    match Lookup(configurations, name)
    case NoMatch =>
    case SingleMatch(k) =>
      RemovedDeletesTheOnlyMatch(configurations, name, k);
    case MultipleMatches =>
  }

  /** Names are compared ignoring case: removing "B" from ["a", "b"] leaves
      ["a"], removing "c" leaves the list as it was. */
  lemma RemovedExamples(a: Option<string>, b: Option<string>)
    ensures
      var configurations := [FrontendIpConfiguration(Some("a"), a), FrontendIpConfiguration(Some("b"), b)];
      Removed(configurations, Some("B")) == Success([configurations[0]])
      && Removed(configurations, Some("c")) == Success(configurations)
  {
    var configurations := [FrontendIpConfiguration(Some("a"), a), FrontendIpConfiguration(Some("b"), b)];
    assert UpperChar('b') == 'B' && UpperChar('a') == 'A' && UpperChar('c') == 'C';
    assert Matches(configurations[1], Some("B"));
    assert UpperChar("a"[0]) != UpperChar("B"[0]);
    RemovedDeletesTheOnlyMatch(configurations, Some("B"), 1);
    assert configurations[..1] + configurations[2..] == [configurations[0]];
    assert UpperChar("a"[0]) != UpperChar("c"[0]) && UpperChar("b"[0]) != UpperChar("c"[0]);
  }
}
