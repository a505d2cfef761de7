// The `New-AzureRmFirewallNetworkRule` command: four guard checks on the
// list parameters, a check that every protocol is one of the allowed
// protocol names, then a network rule built from the parameters verbatim.
module NewAzureFirewallNetworkRule {
  import opened Wrappers
  import opened CaseInsensitive

  /** The protocol names of the network SDK's `AzureFirewallNetworkRuleProtocol`. */
  const ProtocolAny: string := "Any"
  const ProtocolIcmp: string := "ICMP"
  const ProtocolTcp: string := "TCP"
  const ProtocolUdp: string := "UDP"

  /** The parameters as the command receives them; a list or a description
      that was not supplied is null. */
  datatype Parameters = Parameters(
    name: string,
    description: Option<string>,
    sourceAddress: Option<seq<string>>,
    destinationAddress: Option<seq<string>>,
    destinationPort: Option<seq<string>>,
    protocol: Option<seq<string>>)

  /** The emitted rule object. */
  datatype NetworkRule = NetworkRule(
    name: string,
    description: Option<string>,
    protocols: seq<string>,
    sourceAddresses: seq<string>,
    destinationAddresses: seq<string>,
    destinationPorts: seq<string>)

  /** The `ArgumentException`s the command throws, one per check. */
  datatype RuleError =
    | MissingProtocol
    | MissingSourceAddress
    | MissingDestinationAddress
    | MissingDestinationPort
    | InvalidProtocol(paramName: string)

  /** The exception's message text. The invalid-protocol message is an
      interpolated string whose hole holds the constant 0, so it does not
      name the offending value; that value travels as the parameter name. */
  function Message(e: RuleError): string
  {
    match e
    case MissingProtocol => "At least one network rule protocol should be specified!"
    case MissingSourceAddress => "At least one network rule source IP should be specified!"
    case MissingDestinationAddress => "At least one network rule destination IP should be specified!"
    case MissingDestinationPort => "At least one network rule destination port should be specified!"
    case InvalidProtocol(_) => "Invalid protocol 0"
  }

  /** A list parameter passes its guard when it is non-null and non-empty. */
  predicate IsSpecified(list: Option<seq<string>>)
  {
    list.Some? && |list.value| > 0
  }

  /** A protocol is allowed when it equals one of the four names, ignoring case. */
  predicate IsAllowedProtocol(protocol: string)
  {
    EqualsIgnoreCase(protocol, ProtocolAny) || EqualsIgnoreCase(protocol, ProtocolIcmp) ||
    EqualsIgnoreCase(protocol, ProtocolTcp) || EqualsIgnoreCase(protocol, ProtocolUdp)
  }

  /** Walks the protocols in order and throws on the first one not allowed. */
  function ValidateProtocols(protocols: seq<string>): (r: Outcome<RuleError>)
    ensures r.Pass? <==> forall i :: 0 <= i < |protocols| ==> IsAllowedProtocol(protocols[i])
    ensures r.Fail? ==> r.error.InvalidProtocol? && r.error.paramName in protocols
                        && !IsAllowedProtocol(r.error.paramName)
  {
    if protocols == [] then Pass
    else if !IsAllowedProtocol(protocols[0]) then Fail(InvalidProtocol(protocols[0]))
    else ValidateProtocols(protocols[1..])
  }

  /** The command body: the guard checks in their fixed order, then the
      protocol check, then the rule built from the parameters. */
  function Execute(p: Parameters): (r: Result<NetworkRule, RuleError>)
    // the command succeeds exactly when every list is given and every protocol is allowed
    ensures r.Success? <==>
      IsSpecified(p.protocol) && IsSpecified(p.sourceAddress) && IsSpecified(p.destinationAddress)
      && IsSpecified(p.destinationPort)
      && forall i :: 0 <= i < |p.protocol.value| ==> IsAllowedProtocol(p.protocol.value[i])
    // on success the rule holds the parameters unchanged
    ensures r.Success? ==>
      r.value.name == p.name && r.value.description == p.description
      && r.value.protocols == p.protocol.value && r.value.sourceAddresses == p.sourceAddress.value
      && r.value.destinationAddresses == p.destinationAddress.value
      && r.value.destinationPorts == p.destinationPort.value
    // the error reported is the one of the first missing list, in this order
    ensures r == Failure(MissingProtocol) <==> !IsSpecified(p.protocol)
    ensures r == Failure(MissingSourceAddress) <==>
      IsSpecified(p.protocol) && !IsSpecified(p.sourceAddress)
    ensures r == Failure(MissingDestinationAddress) <==>
      IsSpecified(p.protocol) && IsSpecified(p.sourceAddress) && !IsSpecified(p.destinationAddress)
    ensures r == Failure(MissingDestinationPort) <==>
      IsSpecified(p.protocol) && IsSpecified(p.sourceAddress) && IsSpecified(p.destinationAddress)
      && !IsSpecified(p.destinationPort)
    // a protocol error is reported only once all four lists are present
    ensures r.Failure? && r.error.InvalidProtocol? ==>
      IsSpecified(p.protocol) && IsSpecified(p.sourceAddress) && IsSpecified(p.destinationAddress)
      && IsSpecified(p.destinationPort) && !IsAllowedProtocol(r.error.paramName)
      && r.error.paramName in p.protocol.value
  {
    if !IsSpecified(p.protocol) then Failure(MissingProtocol)
    else if !IsSpecified(p.sourceAddress) then Failure(MissingSourceAddress)
    else if !IsSpecified(p.destinationAddress) then Failure(MissingDestinationAddress)
    else if !IsSpecified(p.destinationPort) then Failure(MissingDestinationPort)
    else
      match ValidateProtocols(p.protocol.value)
      case Fail(e) => Failure(e)
      case Pass =>
        Success(NetworkRule(p.name, p.description, p.protocol.value, p.sourceAddress.value,
                            p.destinationAddress.value, p.destinationPort.value))
  }

  /** The allowed protocols are those whose upper-case form is one of four words. */
  lemma IsAllowedProtocolIffUpperInSet(protocol: string)
    ensures IsAllowedProtocol(protocol) <==> Upper(protocol) in {"ANY", "ICMP", "TCP", "UDP"}
  {
    assert Upper(ProtocolAny) == "ANY";
    assert Upper(ProtocolIcmp) == "ICMP";
    assert Upper(ProtocolTcp) == Upper("TCP") == "TCP";
    assert Upper(ProtocolUdp) == "UDP";
    EqualsIgnoreCaseIffSameUpper(protocol, ProtocolAny);
    EqualsIgnoreCaseIffSameUpper(protocol, ProtocolIcmp);
    EqualsIgnoreCaseIffSameUpper(protocol, ProtocolTcp);
    EqualsIgnoreCaseIffSameUpper(protocol, ProtocolUdp);
  }

  /** Any casing of an allowed name passes. */
  lemma LowerCaseProtocolsAreAllowed()
    ensures IsAllowedProtocol("tcp") && IsAllowedProtocol("Icmp")
  {
    assert UpperChar('t') == 'T' && UpperChar('c') == 'C' && UpperChar('p') == 'P';
    assert UpperChar('m') == 'M';
    assert EqualsIgnoreCase("tcp", ProtocolTcp);
    assert EqualsIgnoreCase("Icmp", ProtocolIcmp);
  }

  /** Other names, and allowed names with a trailing space, do not pass. */
  lemma OtherProtocolsAreRejected()
    ensures !IsAllowedProtocol("HTTP") && !IsAllowedProtocol("TCP ")
  {
    assert UpperChar("HTTP"[0]) != UpperChar(ProtocolIcmp[0]);
    assert UpperChar("TCP "[0]) != UpperChar(ProtocolIcmp[0]);
    assert UpperChar("HTTP"[0]) != UpperChar(ProtocolAny[0]);
  }

  /** The protocol check reports the first protocol that is not allowed. */
  lemma {:induction false} ValidateProtocolsReportsFirstInvalid(protocols: seq<string>, k: nat)
    requires k < |protocols| && !IsAllowedProtocol(protocols[k])
    requires forall j :: 0 <= j < k ==> IsAllowedProtocol(protocols[j])
    ensures ValidateProtocols(protocols) == Fail(InvalidProtocol(protocols[k]))
  {
    if k > 0 {
      ValidateProtocolsReportsFirstInvalid(protocols[1..], k - 1);
    }
  }

  /** With every list present, the command throws for the first protocol
      that is not allowed, with the fixed message. */
  lemma ExecuteReportsFirstInvalidProtocol(p: Parameters, k: nat)
    requires IsSpecified(p.protocol) && IsSpecified(p.sourceAddress)
    requires IsSpecified(p.destinationAddress) && IsSpecified(p.destinationPort)
    requires k < |p.protocol.value| && !IsAllowedProtocol(p.protocol.value[k])
    requires forall j :: 0 <= j < k ==> IsAllowedProtocol(p.protocol.value[j])
    ensures Execute(p) == Failure(InvalidProtocol(p.protocol.value[k]))
    ensures Message(Execute(p).error) == "Invalid protocol 0"
  {
    ValidateProtocolsReportsFirstInvalid(p.protocol.value, k);
  }

  /** The description is optional and plays no part in the checks: changing
      it changes only the emitted rule's description. */
  lemma DescriptionDoesNotAffectOutcome(p: Parameters, d: Option<string>)
    ensures Execute(p.(description := d)).Success? == Execute(p).Success?
    ensures Execute(p).Failure? ==> Execute(p.(description := d)) == Execute(p)
    ensures Execute(p).Success? ==>
      Execute(p.(description := d)).value == Execute(p).value.(description := d)
  {
  }

  /** Each missing list has its own message. */
  lemma MissingListMessagesAreDistinct(e1: RuleError, e2: RuleError)
    requires !e1.InvalidProtocol? && !e2.InvalidProtocol? && e1 != e2
    ensures Message(e1) != Message(e2)
  {
    var m1, m2 := Message(e1), Message(e2);
    assert m1[26] != m2[26] || m1[38] != m2[38];
  }
}
