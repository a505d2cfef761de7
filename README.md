# Firewall network rules and load-balancer frontend configurations

A verified Dafny model of two commands of the Azure PowerShell network module:

- **`New-AzureRmFirewallNetworkRule`** (`NewAzureFirewallNetworkRule`,
  `new_azure_firewall_network_rule.dfy`). The command checks four list
  parameters in a fixed order: protocols, source addresses, destination
  addresses, destination ports. Each must be non-null and non-empty. It then
  checks that every protocol equals `Any`, `ICMP`, `TCP` or `UDP`, ignoring
  case, and stops at the first one that does not. Finally it builds one
  network rule from the parameters verbatim. The command is modelled as a
  pure function `Execute` from its parameters to
  `Result<NetworkRule, RuleError>`. Each `RuleError` is one of the
  `ArgumentException`s the command throws. `Message` gives that exception's
  text. As written, the invalid-protocol message is always the literal
  `Invalid protocol 0`, because its interpolation hole holds the constant
  `0`. The offending protocol is carried as the exception's parameter name.
- **`Remove-AzureLoadBalancerFrontendIpConfig`** (`RemoveFrontendIpConfig`,
  `remove_frontend_ip_config.dfy`). A `LoadBalancer` object holds a
  `LoadBalancerProperties` object, whose field `frontendIpConfigurations` is
  the ordered list of child entries. `ExecuteCmdlet` runs `SingleOrDefault`
  with a case-insensitive name predicate. That lookup finds nothing, finds
  one entry, or throws because two or more entries match. When it finds one
  entry, `ExecuteCmdlet` removes it from the list in place and emits the same
  load balancer. `SingleOrDefault` is written as a scanning loop and proved
  against the specification function `Lookup`. `Removed` gives the list
  after the command.
- `CaseInsensitive` (`case_insensitive.dfy`) holds the string comparison
  both commands use. `Wrappers` (`wrappers.dfy`) holds `Option`, which
  stands for a reference that may be null, and `Result`/`Outcome`, which
  stand for exceptions.

Two details of the code the model keeps:

- The rule's protocols are the input list as given: duplicates are kept,
  order is kept, and case is not normalised.
- When no name is given (null), only an entry whose name is also null
  matches. An entry with an empty name does not match.

## Model

| member | source | states |
|---|---|---|
| `NewAzureFirewallNetworkRule.Execute` | src/ResourceManager/Network/Commands.Network/AzureFirewall/NetworkRule/NewAzureFirewallNetworkRuleCommand.cs:62-95 | succeeds iff all four lists are non-null and non-empty and every protocol is allowed; on success the rule's six fields equal the parameters; each missing-list error is reported iff its list is the first missing one in the order protocol, source, destination address, destination port; an invalid-protocol error is reported only when all four lists are present, and it names a protocol from the list that is not allowed |
| `NewAzureFirewallNetworkRule.ValidateProtocols` | src/ResourceManager/Network/Commands.Network/AzureFirewall/NetworkRule/NewAzureFirewallNetworkRuleCommand.cs:97-111 | passes iff every entry is an allowed protocol; a failure names an entry of the list that is not allowed |
| `NewAzureFirewallNetworkRule.ValidateProtocolsReportsFirstInvalid` | src/ResourceManager/Network/Commands.Network/AzureFirewall/NetworkRule/NewAzureFirewallNetworkRuleCommand.cs:99-108 | the check stops at the first disallowed protocol in list order and reports that one |
| `NewAzureFirewallNetworkRule.ExecuteReportsFirstInvalidProtocol` | src/ResourceManager/Network/Commands.Network/AzureFirewall/NetworkRule/NewAzureFirewallNetworkRuleCommand.cs:83-108 | with all four lists present, the command fails with the first disallowed protocol as parameter name and the message "Invalid protocol 0" |
| `NewAzureFirewallNetworkRule.IsAllowedProtocolIffUpperInSet` | src/ResourceManager/Network/Commands.Network/AzureFirewall/NetworkRule/NewAzureFirewallNetworkRuleCommand.cs:101-105 | a protocol is allowed iff its upper-case form is one of ANY, ICMP, TCP, UDP |
| `NewAzureFirewallNetworkRule.LowerCaseProtocolsAreAllowed` | src/ResourceManager/Network/Commands.Network/AzureFirewall/NetworkRule/NewAzureFirewallNetworkRuleCommand.cs:101-105 | "tcp" and "Icmp" are allowed |
| `NewAzureFirewallNetworkRule.OtherProtocolsAreRejected` | src/ResourceManager/Network/Commands.Network/AzureFirewall/NetworkRule/NewAzureFirewallNetworkRuleCommand.cs:101-107 | "HTTP" and "TCP " (trailing space) are not allowed |
| `NewAzureFirewallNetworkRule.DescriptionDoesNotAffectOutcome` | src/ResourceManager/Network/Commands.Network/AzureFirewall/NetworkRule/NewAzureFirewallNetworkRuleCommand.cs:85-94 | changing or omitting the optional description leaves success, failure and the error unchanged, and changes only the rule's description |
| `NewAzureFirewallNetworkRule.MissingListMessagesAreDistinct` | src/ResourceManager/Network/Commands.Network/AzureFirewall/NetworkRule/NewAzureFirewallNetworkRuleCommand.cs:66-81 | each of the four missing-list errors has its own message |
| `RemoveFrontendIpConfig.Lookup` | src/ResourceManager/Network/Commands.NetworkResourceProvider/LoadBalancer/FrontendIpConfiguration/RemoveFrontendIpConfigCmdlet.cs:40 | no match iff no entry's name equals the name ignoring case; a single match is at a matching index and no other entry matches; multiple matches means two distinct matching entries exist |
| `RemoveFrontendIpConfig.SingleOrDefault` | src/ResourceManager/Network/Commands.NetworkResourceProvider/LoadBalancer/FrontendIpConfiguration/RemoveFrontendIpConfigCmdlet.cs:40 | a one-pass scan returns exactly the lookup outcome `Lookup` specifies; stopping at the second match is this scan's choice, and a library that counts every match first reaches the same outcome on the entries modelled |
| `RemoveFrontendIpConfig.ExecuteCmdlet` | src/ResourceManager/Network/Commands.NetworkResourceProvider/LoadBalancer/FrontendIpConfiguration/RemoveFrontendIpConfigCmdlet.cs:36-48 | only the properties' frontend list changes; on success the same load balancer is emitted and the list becomes `Removed` of the old list; on an ambiguous name nothing changes and the failure is reported |
| `RemoveFrontendIpConfig.RemovedWithoutMatchIsUnchanged` | src/ResourceManager/Network/Commands.NetworkResourceProvider/LoadBalancer/FrontendIpConfiguration/RemoveFrontendIpConfigCmdlet.cs:40-47 | with no matching entry the list is unchanged and the command succeeds |
| `RemoveFrontendIpConfig.RemovedDeletesTheOnlyMatch` | src/ResourceManager/Network/Commands.NetworkResourceProvider/LoadBalancer/FrontendIpConfiguration/RemoveFrontendIpConfigCmdlet.cs:40-45 | with exactly one match at index k, the new list is the old one without index k: one shorter, the rest in order, the same multiset minus that entry, and no remaining entry matches |
| `RemoveFrontendIpConfig.RemovedFailsOnAmbiguousName` | src/ResourceManager/Network/Commands.NetworkResourceProvider/LoadBalancer/FrontendIpConfiguration/RemoveFrontendIpConfigCmdlet.cs:40 | two matching entries make the command fail |
| `RemoveFrontendIpConfig.NullNameMatchesOnlyNullNames` | src/ResourceManager/Network/Commands.NetworkResourceProvider/LoadBalancer/FrontendIpConfiguration/RemoveFrontendIpConfigCmdlet.cs:24-40 | when no name is given, an entry matches iff its own name is null |
| `RemoveFrontendIpConfig.RemovedTwiceIsRemovedOnce` | src/ResourceManager/Network/Commands.NetworkResourceProvider/LoadBalancer/FrontendIpConfiguration/RemoveFrontendIpConfigCmdlet.cs:40-45 | removing the same name a second time leaves the list as the first removal left it |
| `RemoveFrontendIpConfig.RemovedExamples` | src/ResourceManager/Network/Commands.NetworkResourceProvider/LoadBalancer/FrontendIpConfiguration/RemoveFrontendIpConfigCmdlet.cs:40-45 | removing "B" from entries named ["a", "b"] leaves ["a"]; removing "c" leaves both |
| `CaseInsensitive.EqualsIgnoreCaseIffSameUpper` | src/ResourceManager/Network/Commands.Network/AzureFirewall/NetworkRule/NewAzureFirewallNetworkRuleCommand.cs:102-105 | comparing ignoring case position by position agrees with comparing the upper-case forms |
| `CaseInsensitive.EqualsIgnoreCaseIsEquivalence` | src/ResourceManager/Network/Commands.Network/AzureFirewall/NetworkRule/NewAzureFirewallNetworkRuleCommand.cs:102-105 | ignore-case equality is reflexive, symmetric and transitive |
| `CaseInsensitive.NullableEqualsIgnoreCaseIsEquivalence` | src/ResourceManager/Network/Commands.NetworkResourceProvider/LoadBalancer/FrontendIpConfiguration/RemoveFrontendIpConfigCmdlet.cs:40 | the null-aware comparison is an equivalence, and null equals null only |

## Left out

- The debug trace listener (`src/Common/Commands.Common/DebugStreamTraceListener.cs`) is not part of this model. It only forwards trace strings into a concurrent queue.
- The base-class calls `base.Execute()` and `base.ExecuteCmdlet()` are not modelled. Those classes are not part of this model.
- The PowerShell host's parameter binding is not modelled. This covers `Mandatory`, `ValidateNotNullOrEmpty`, `ValueFromPipeline` and `SupportsShouldProcess`. The command body's own null and empty-list checks are modelled even though the host's checks come first.
- `WriteObject` and the pipeline are not modelled. The emitted object is the success value of the returned `Result`.
- Both ignore-case comparisons are modelled by ASCII upper-case folding. This covers `OrdinalIgnoreCase` and the culture-dependent `CurrentCultureIgnoreCase`. Non-ASCII case mappings and culture rules, such as the Turkish dotted i, are not modelled.
- A null rule name and null list elements are not modelled: `Parameters.name` is a string and list elements are strings. The host's `ValidateNotNullOrEmpty` on `Name` and on each list (NewAzureFirewallNetworkRuleCommand.cs lines 29, 41, 47, 53, 59) rejects a null or empty name and null or empty elements before `Execute` runs. Were they to reach the body, a null name and null address or port entries would be copied into the rule unchanged. A null protocol entry would equal none of the four names and fail as `InvalidProtocol` with a null parameter name.
- A null `Properties` object, a null frontend list and a null frontend entry are not modelled. In the source each of these raises a different exception from the lookup, such as a null dereference of `resource.Name`.
- A C# list is a shared mutable object, and an entry is matched by reference. The model holds the list as a sequence value in a field, and entries as values. Aliasing of the list object by other holders is therefore not modelled. `List.Remove` removes the first reference equal to the found entry. With a unique match, that is the found index, which is what the model removes.
- The text that `ArgumentException` composes from the message and the parameter name is not modelled. `Message` gives only the message argument.
- A frontend IP configuration is modelled with its name and id only. Its other properties play no part in the command.
- The `OutputType` metadata attribute of the remove command is not modelled.
