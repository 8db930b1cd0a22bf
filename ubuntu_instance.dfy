/**
 * `EC2Manager.create_ubuntu_instance`: the IP-restricted SSH ingress, the
 * choice of security group and the argument dictionary handed to the instance
 * constructor. The image lookup's result id is an input (`amiId`); a declared
 * security group's `name` attribute is the name it was declared with.
 */
module UbuntuInstance {
  import opened Common
  import opened UbuntuAmi
  import opened SecurityGroup

  /** One entry of `ebs_block_devices`. */
  datatype EbsDevice = EbsDevice(deviceName: string, volumeSize: int, volumeType: string)

  /** A value of the instance argument dictionary. */
  datatype ArgValue =
    | Text(text: string)
    | BlockDevices(devices: seq<EbsDevice>)
    | Names(names: seq<string>)
    | Tags(tags: map<string, string>)

  /** The security group an instance gets: one the caller passed in, or one declared here. */
  datatype SGChoice = Supplied(sgName: string) | Declared(decl: SGDecl) {
    /** The group's `name`, the value that goes into `security_groups`. */
    function Name(): string {
      match this
      case Supplied(n) => n
      case Declared(d) => d.name
    }
  }

  /** The instance constructor's logical name and keyword arguments. */
  datatype InstanceDecl = InstanceDecl(resourceName: string, args: map<string, ArgValue>)

  /** Everything one call hands to the external provider: image query, group, instance. */
  datatype Provisioning = Provisioning(amiQuery: AmiQuery, securityGroup: SGChoice, instance: InstanceDecl)

  const IamKey: string := "iam_instance_profile"

  /** The keys `instance_args` always has. */
  const BaseArgKeys: set<string> :=
    {"instance_type", "ami", "ebs_block_devices", "key_name", "security_groups", "tags"}

  // ---------------------------------------------------------------------------
  // IP-restricted ingress
  // ---------------------------------------------------------------------------

  /** SSH from one IPv4 address; the `/32` is appended to whatever the caller gave. */
  function Ipv4SshRule(ip: string): Rule {
    Rule("tcp", SshPort, SshPort, Some([ip + "/32"]), None, "SSH access from my IPv4 address")
  }

  /** SSH from one IPv6 address; the `/128` is appended to whatever the caller gave. */
  function Ipv6SshRule(ip: string): Rule {
    Rule("tcp", SshPort, SshPort, None, Some([ip + "/128"]), "SSH access from my IPv6 address")
  }

  /** The ingress list of the restricted group: the IPv4 rule, then the IPv6 rule, each if given. */
  function RestrictedIngress(ipv4: Option<string>, ipv6: Option<string>): seq<Rule> {
    (if Truthy(ipv4) then [Ipv4SshRule(ipv4.value)] else [])
    + (if Truthy(ipv6) then [Ipv6SshRule(ipv6.value)] else [])
  }

  /** One SSH rule per given address, IPv4 first, each scoped to exactly that address. */
  lemma RestrictedIngressShape(ipv4: Option<string>, ipv6: Option<string>)
    ensures var rules := RestrictedIngress(ipv4, ipv6);
      && |rules| == (if Truthy(ipv4) then 1 else 0) + (if Truthy(ipv6) then 1 else 0)
      && (forall i :: 0 <= i < |rules| ==>
            rules[i].protocol == "tcp" && rules[i].fromPort == 22 && rules[i].toPort == 22)
      && (Truthy(ipv4) ==>
            rules[0].cidrBlocks == Some([ipv4.value + "/32"]) && rules[0].ipv6CidrBlocks.None?)
      && (Truthy(ipv6) ==>
            rules[|rules| - 1].ipv6CidrBlocks == Some([ipv6.value + "/128"])
            && rules[|rules| - 1].cidrBlocks.None?)
  {
  }

  /** Restricting to an address never opens SSH to the whole IPv4 or IPv6 space. */
  lemma RestrictedIngressNeverOpen(ipv4: Option<string>, ipv6: Option<string>)
    ensures forall i :: 0 <= i < |RestrictedIngress(ipv4, ipv6)| ==>
              !OpenToWorld(RestrictedIngress(ipv4, ipv6)[i])
  {
    if Truthy(ipv4) {
      ConcatDiffersByLastChar(ipv4.value, "/32", AnywhereV4);
      assert !OpenToWorld(Ipv4SshRule(ipv4.value));
    }
    if Truthy(ipv6) {
      ConcatDiffersByLastChar(ipv6.value, "/128", AnywhereV6);
      assert !OpenToWorld(Ipv6SshRule(ipv6.value));
    }
  }

  /** An address that already carries `/32` gets a second one: the suffix is not parsed. */
  lemma Ipv4SuffixDoubled(ip: string)
    requires EndsWith(ip, "/32")
    ensures EndsWith(Ipv4SshRule(ip).cidrBlocks.value[0], "/32/32")
  {
  }

  /** An address that already carries `/128` gets a second one. */
  lemma Ipv6SuffixDoubled(ip: string)
    requires EndsWith(ip, "/128")
    ensures EndsWith(Ipv6SshRule(ip).ipv6CidrBlocks.value[0], "/128/128")
  {
  }

  /** The documented example inputs, already in prefix notation, come out double-suffixed. */
  lemma DocumentedExampleDoubleSuffix()
    ensures RestrictedIngress(Some("203.0.113.1/32"), Some("2001:DB8::1/128"))
         == [Ipv4SshRule("203.0.113.1/32"), Ipv6SshRule("2001:DB8::1/128")]
    ensures EndsWith(RestrictedIngress(Some("203.0.113.1/32"), None)[0].cidrBlocks.value[0], "/32/32")
  {
  }

  /** Builds the restricted ingress list the way the source does: start empty, append. */
  method BuildRestrictedIngress(ipv4: Option<string>, ipv6: Option<string>) returns (rules: seq<Rule>)
    ensures rules == RestrictedIngress(ipv4, ipv6)
  {
    rules := [];
    if Truthy(ipv4) {
      rules := rules + [Ipv4SshRule(ipv4.value)];
    }
    if Truthy(ipv6) {
      rules := rules + [Ipv6SshRule(ipv6.value)];
    }
  }

  // ---------------------------------------------------------------------------
  // Security-group selection
  // ---------------------------------------------------------------------------

  function RestrictedDescription(name: string): string {
    "Security group with restricted SSH access for " + name
  }

  /** Any given address wins, then a supplied group, then a default group named `name`. */
  function SelectSecurityGroup(
    name: string, securityGroup: Option<string>,
    ipv4: Option<string>, ipv6: Option<string>): SGChoice
  {
    if Truthy(ipv4) || Truthy(ipv6) then
      Declared(CreateSecurityGroup(
        name + "-restricted", RestrictedDescription(name), Some(RestrictedIngress(ipv4, ipv6)), None))
    else if securityGroup.None? then
      Declared(CreateSecurityGroup(name, DefaultDescription, None, None))
    else
      Supplied(securityGroup.value)
  }

  /** With an address given, a restricted group is declared whatever group was supplied. */
  lemma RestrictedGroupWins(
    name: string, securityGroup: Option<string>, ipv4: Option<string>, ipv6: Option<string>)
    requires Truthy(ipv4) || Truthy(ipv6)
    ensures var c := SelectSecurityGroup(name, securityGroup, ipv4, ipv6);
      && c.Declared?
      && c.decl.name == name + "-restricted"
      && c.decl.ingress == RestrictedIngress(ipv4, ipv6)
      && c.decl.ingress != []
      && (forall i :: 0 <= i < |c.decl.ingress| ==> !OpenToWorld(c.decl.ingress[i]))
      && c == SelectSecurityGroup(name, None, ipv4, ipv6)
  {
    RestrictedIngressShape(ipv4, ipv6);
    RestrictedIngressNeverOpen(ipv4, ipv6);
  }

  /** Without an address, a supplied group is used as it is and nothing is declared. */
  lemma SuppliedGroupUsed(name: string, sgName: string, ipv4: Option<string>, ipv6: Option<string>)
    requires !Truthy(ipv4) && !Truthy(ipv6)
    ensures SelectSecurityGroup(name, Some(sgName), ipv4, ipv6) == Supplied(sgName)
  {
  }

  /** Without an address or a group, a default group named `name` opens SSH to the world. */
  lemma DefaultGroupDeclared(name: string, ipv4: Option<string>, ipv6: Option<string>)
    requires !Truthy(ipv4) && !Truthy(ipv6)
    ensures var c := SelectSecurityGroup(name, None, ipv4, ipv6);
      && c.Declared?
      && c.decl.name == name
      && c.decl.description == DefaultDescription
      && c.decl.ingress == [SshFromAnywhere]
      && OpenToWorld(c.decl.ingress[0])
  {
  }

  /** Every group declared here, restricted or default, gets the all-traffic egress rule. */
  lemma DeclaredGroupEgressIsAllOutbound(
    name: string, securityGroup: Option<string>, ipv4: Option<string>, ipv6: Option<string>)
    ensures var c := SelectSecurityGroup(name, securityGroup, ipv4, ipv6);
      c.Declared? ==> c.decl.egress == [AllOutbound]
  {
  }

  // ---------------------------------------------------------------------------
  // Instance arguments
  // ---------------------------------------------------------------------------

  /**
   * `args` is exactly the keyword-argument dictionary of the instance: the six
   * fixed keys with their values, plus `iam_instance_profile` exactly when the
   * profile is truthy, and no other key.
   */
  predicate IsInstanceArgs(
    args: map<string, ArgValue>, name: string, storage: int, amiId: string,
    instanceType: string, sshKeyName: string, sgName: string, iamProfile: Option<string>)
  {
    && args.Keys == BaseArgKeys + (if Truthy(iamProfile) then {IamKey} else {})
    && args["instance_type"] == Text(instanceType)
    && args["ami"] == Text(amiId)
    && args["ebs_block_devices"] == BlockDevices([EbsDevice("/dev/sda1", storage, "gp3")])
    && args["key_name"] == Text(sshKeyName)
    && args["security_groups"] == Names([sgName])
    && args["tags"] == Tags(map["Name" := name])
    && (Truthy(iamProfile) ==> args[IamKey] == Text(iamProfile.value))
  }

  /** The description above leaves nothing open: it fixes the dictionary completely. */
  lemma InstanceArgsDetermined(
    a1: map<string, ArgValue>, a2: map<string, ArgValue>, name: string, storage: int,
    amiId: string, instanceType: string, sshKeyName: string, sgName: string,
    iamProfile: Option<string>)
    requires IsInstanceArgs(a1, name, storage, amiId, instanceType, sshKeyName, sgName, iamProfile)
    requires IsInstanceArgs(a2, name, storage, amiId, instanceType, sshKeyName, sgName, iamProfile)
    ensures a1 == a2
  {
  }

  /** Builds the dictionary, then inserts the profile in place when it is truthy. */
  method AssembleInstanceArgs(
    name: string, storage: int, amiId: string, instanceType: string,
    sshKeyName: string, sgName: string, iamProfile: Option<string>)
    returns (args: map<string, ArgValue>)
    ensures IsInstanceArgs(args, name, storage, amiId, instanceType, sshKeyName, sgName, iamProfile)
  {
    args := map[
      "instance_type" := Text(instanceType),
      "ami" := Text(amiId),
      "ebs_block_devices" := BlockDevices([EbsDevice("/dev/sda1", storage, "gp3")]),
      "key_name" := Text(sshKeyName),
      "security_groups" := Names([sgName]),
      "tags" := Tags(map["Name" := name])
    ];
    if Truthy(iamProfile) {
      args := args[IamKey := Text(iamProfile.value)];
    }
  }

  // ---------------------------------------------------------------------------
  // The whole call
  // ---------------------------------------------------------------------------

  /**
   * One call of `create_ubuntu_instance`. `securityGroup` is the name of a
   * caller-supplied group; `amiId` is the id the image lookup returned.
   */
  method CreateUbuntuInstance(
    name: string, storage: int, version: string, arch: string,
    instanceType: string, sshKeyName: string,
    securityGroup: Option<string>, iamProfile: Option<string>,
    myIpv4: Option<string>, myIpv6: Option<string>, amiId: string)
    returns (p: Provisioning)
    ensures p.amiQuery == UbuntuAmiQuery(version, arch)
    ensures p.securityGroup == SelectSecurityGroup(name, securityGroup, myIpv4, myIpv6)
    ensures p.instance.resourceName == name
    ensures IsInstanceArgs(p.instance.args, name, storage, amiId, instanceType, sshKeyName,
                           p.securityGroup.Name(), iamProfile)
  {
    var query := UbuntuAmiQuery(version, arch);
    var group: SGChoice;
    if Truthy(myIpv4) || Truthy(myIpv6) {
      var ingressRules := BuildRestrictedIngress(myIpv4, myIpv6);
      group := Declared(CreateSecurityGroup(
        name + "-restricted", RestrictedDescription(name), Some(ingressRules), None));
    } else if securityGroup.None? {
      group := Declared(CreateSecurityGroup(name, DefaultDescription, None, None));
    } else {
      group := Supplied(securityGroup.value);
    }
    var args := AssembleInstanceArgs(
      name, storage, amiId, instanceType, sshKeyName, group.Name(), iamProfile);
    p := Provisioning(query, group, InstanceDecl(name, args));
  }

  /** Exactly one security group and exactly one root volume reach the instance. */
  lemma OneGroupOneVolume(
    args: map<string, ArgValue>, name: string, storage: int, amiId: string,
    instanceType: string, sshKeyName: string, sgName: string, iamProfile: Option<string>)
    requires IsInstanceArgs(args, name, storage, amiId, instanceType, sshKeyName, sgName, iamProfile)
    ensures |args["security_groups"].names| == 1 && args["security_groups"].names[0] == sgName
    ensures |args["ebs_block_devices"].devices| == 1
    ensures args["ebs_block_devices"].devices[0].volumeSize == storage
    ensures (IamKey in args) <==> Truthy(iamProfile)
    ensures |args| == if Truthy(iamProfile) then 7 else 6
  {
  }
}
