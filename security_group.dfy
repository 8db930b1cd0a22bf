/**
 * The security-group declaration that `EC2Manager.create_security_group` hands
 * to the resource provider, with its default ingress and egress rules.
 */
module SecurityGroup {
  import opened Common

  const AnywhereV4: string := "0.0.0.0/0"
  const AnywhereV6: string := "::/0"
  const SshPort: int := 22

  /** The `description` argument's default value. */
  const DefaultDescription: string := "Security group for SSH access"

  /**
   * One ingress or egress rule. A `cidr_blocks` or `ipv6_cidr_blocks` key the
   * rule does not carry is `None`.
   */
  datatype Rule = Rule(
    protocol: string,
    fromPort: int,
    toPort: int,
    cidrBlocks: Option<seq<string>>,
    ipv6CidrBlocks: Option<seq<string>>,
    description: string)

  /** The arguments of one declared security group. */
  datatype SGDecl = SGDecl(
    resourceName: string,
    name: string,
    description: string,
    ingress: seq<Rule>,
    egress: seq<Rule>,
    tags: map<string, string>)

  /** The ingress used when none is given: SSH from every IPv4 address. */
  const SshFromAnywhere: Rule :=
    Rule("tcp", SshPort, SshPort, Some([AnywhereV4]), None, "SSH access from anywhere")

  /** The egress used when none is given: every protocol to every IPv4 address. */
  const AllOutbound: Rule :=
    Rule("-1", 0, 0, Some([AnywhereV4]), None, "Allow all outbound traffic")

  /** True when the rule admits traffic from the whole IPv4 or IPv6 address space. */
  predicate OpenToWorld(r: Rule) {
    (r.cidrBlocks.Some? && AnywhereV4 in r.cidrBlocks.value) ||
    (r.ipv6CidrBlocks.Some? && AnywhereV6 in r.ipv6CidrBlocks.value)
  }

  /**
   * Declares a security group. A missing (`None`) rule list is replaced by its
   * default; a supplied list, even an empty one, is used unchanged.
   */
  function CreateSecurityGroup(
    name: string, description: string,
    ingress: Option<seq<Rule>>, egress: Option<seq<Rule>>): (sg: SGDecl)
    ensures sg.name == name && sg.description == description
    ensures sg.resourceName == "security_group_" + name
    ensures sg.tags.Keys == {"Name"} && sg.tags["Name"] == name
    ensures ingress.Some? ==> sg.ingress == ingress.value
    ensures ingress.None? ==>
              (|sg.ingress| == 1 && sg.ingress[0].protocol == "tcp"
               && sg.ingress[0].fromPort == 22 && sg.ingress[0].toPort == 22
               && sg.ingress[0].cidrBlocks == Some(["0.0.0.0/0"]) && OpenToWorld(sg.ingress[0]))
    ensures egress.Some? ==> sg.egress == egress.value
    ensures egress.None? ==>
              (|sg.egress| == 1 && sg.egress[0].protocol == "-1"
               && sg.egress[0].fromPort == 0 && sg.egress[0].toPort == 0
               && sg.egress[0].cidrBlocks == Some(["0.0.0.0/0"]))
  {
    var effectiveIngress := if ingress.None? then [SshFromAnywhere] else ingress.value;
    var effectiveEgress := if egress.None? then [AllOutbound] else egress.value;
    SGDecl("security_group_" + name, name, description, effectiveIngress, effectiveEgress,
           map["Name" := name])
  }

  /** Leaving a rule list out is the same as passing its default explicitly. */
  lemma DefaultsAreExplicitRules(name: string, description: string)
    ensures CreateSecurityGroup(name, description, None, None)
         == CreateSecurityGroup(name, description, Some([SshFromAnywhere]), Some([AllOutbound]))
  {
  }
}
