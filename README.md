# EC2 configuration shaping of `EC2Manager`

This project models, in Dafny, the configuration-shaping logic of `EC2Manager`
(`pulumi_easy/aws/ec2/ec2.py`): the part that decides exactly which arguments
reach the Pulumi AWS constructors. The constructors themselves, and the image
lookup, are external; the model records only the arguments handed to them.

- `common.dfy` (`Common`): the optional-argument type and Python truthiness of an
  optional string (`None` and `""` are both falsy), plus string prefix/suffix predicates.
- `ubuntu_ami.dfy` (`UbuntuAmi`): `get_ubuntu_ami`. The fixed release table
  (`20.04`, `22.04`, `24.04`) and its `*-{version}` wildcard fallback, the name
  filter `ubuntu/images/{fragment}-{arch}-server-*`, the `virtualization-type = hvm`
  filter and the owner `099720109477`.
- `security_group.dfy` (`SecurityGroup`): `create_security_group`. A missing
  ingress list becomes SSH from `0.0.0.0/0`; a missing egress list becomes
  all traffic to `0.0.0.0/0`; supplied lists (even empty ones) pass through
  unchanged; the `Name` tag is the group name.
- `ubuntu_instance.dfy` (`UbuntuInstance`): `create_ubuntu_instance`. The
  restricted ingress list is built by appending an IPv4 rule (`ip + "/32"`)
  and then an IPv6 rule (`ip + "/128"`). The group is chosen by precedence:
  a restricted group if any address is given, else the supplied group, else a
  default group named `name`. The instance argument dictionary is then assembled,
  and `iam_instance_profile` is inserted only when the profile is truthy.

The suffix is appended by plain string concatenation, with no parsing. So the
docstring's own example inputs, which already carry a prefix length
(`203.0.113.1/32`, `2001:DB8::1/128`), come out as `203.0.113.1/32/32` and
`2001:DB8::1/128/128`. The model keeps this behaviour as written. The lemmas
`Ipv4SuffixDoubled`, `Ipv6SuffixDoubled` and `DocumentedExampleDoubleSuffix`
pin it down.

Modelling choices:
- The id of the looked-up image (`ami.id`) is an input of `CreateUbuntuInstance`.
- A caller-supplied security group is represented by its `name`.
- The `name` attribute of a group declared here is the name it was declared with.
- `storage` is an unbounded integer, because the source does not validate it.

## Model

| member | source | states |
|---|---|---|
| `UbuntuAmi.KnownReleaseFragments` | pulumi_easy/aws/ec2/ec2.py:34-41 | `20.04`, `22.04` and `24.04` map to the focal, jammy and noble fragments exactly; every other version `v` maps to `*-` + `v` |
| `UbuntuAmi.FragmentRoundTrip` | pulumi_easy/aws/ec2/ec2.py:34-41 | the release can be read back from its fragment, for the known releases and for the wildcard fallback alike |
| `UbuntuAmi.FragmentInjective` | pulumi_easy/aws/ec2/ec2.py:34-41 | two different version strings never get the same fragment |
| `UbuntuAmi.NameFilterValue` | pulumi_easy/aws/ec2/ec2.py:47 | the name pattern starts with `ubuntu/images/` followed by the fragment and `-`, and ends with `-` + arch + `-server-*` |
| `UbuntuAmi.UbuntuAmiQuery` | pulumi_easy/aws/ec2/ec2.py:44-58 | the lookup asks for the most recent image, has exactly two filters (the name pattern, then `virtualization-type` = `["hvm"]`), and the owner list is exactly `["099720109477"]` |
| `UbuntuAmi.QueryDeterminesVersion` | pulumi_easy/aws/ec2/ec2.py:34-58 | for a fixed architecture, equal queries come from equal versions |
| `UbuntuAmi.QueryDeterminesArch` | pulumi_easy/aws/ec2/ec2.py:44-58 | for a fixed version, equal queries come from equal architectures |
| `UbuntuAmi.WildcardQueryAmbiguous` | pulumi_easy/aws/ec2/ec2.py:41-47 | for unknown versions the pair is not recoverable: version `u-v` with arch `w` gives the same query as version `u` with arch `v-w` |
| `SecurityGroup.CreateSecurityGroup` | pulumi_easy/aws/ec2/ec2.py:115-145 | `None` ingress becomes the one rule tcp 22–22 from `["0.0.0.0/0"]`; `None` egress becomes the one rule `-1` 0–0 to `["0.0.0.0/0"]`; supplied lists are used unchanged; name, description, logical name `security_group_{name}` and tag `Name = name` |
| `SecurityGroup.DefaultsAreExplicitRules` | pulumi_easy/aws/ec2/ec2.py:115-135 | omitting both lists declares the same group as passing the two default rules explicitly |
| `UbuntuInstance.RestrictedIngressShape` | pulumi_easy/aws/ec2/ec2.py:194-218 | the restricted list has one rule per truthy address, every rule is tcp 22–22, the IPv4 rule comes first with `cidr_blocks = [ipv4 + "/32"]`, and the IPv6 rule comes last with `ipv6_cidr_blocks = [ipv6 + "/128"]` |
| `UbuntuInstance.RestrictedIngressNeverOpen` | pulumi_easy/aws/ec2/ec2.py:194-218 | no restricted rule admits `0.0.0.0/0` or `::/0`, whatever address strings are given |
| `UbuntuInstance.Ipv4SuffixDoubled` | pulumi_easy/aws/ec2/ec2.py:199-204 | an IPv4 input already ending in `/32` yields a CIDR ending in `/32/32`: the suffix is not parsed or deduplicated |
| `UbuntuInstance.Ipv6SuffixDoubled` | pulumi_easy/aws/ec2/ec2.py:211-216 | an IPv6 input already ending in `/128` yields a CIDR ending in `/128/128` |
| `UbuntuInstance.DocumentedExampleDoubleSuffix` | pulumi_easy/aws/ec2/ec2.py:170-171 | the docstring's example inputs `203.0.113.1/32` and `2001:DB8::1/128` produce double-suffixed rules |
| `UbuntuInstance.BuildRestrictedIngress` | pulumi_easy/aws/ec2/ec2.py:195-218 | building the list by appending to an empty list yields exactly the restricted ingress list above |
| `UbuntuInstance.RestrictedGroupWins` | pulumi_easy/aws/ec2/ec2.py:194-225 | with any truthy address, a group named `name-restricted` is declared with the non-empty restricted ingress, none of it open to the world, and the supplied group has no effect |
| `UbuntuInstance.SuppliedGroupUsed` | pulumi_easy/aws/ec2/ec2.py:226-228 | with no truthy address, a supplied group is used as it is |
| `UbuntuInstance.DefaultGroupDeclared` | pulumi_easy/aws/ec2/ec2.py:227-228 | with no truthy address and no group, a default group named `name` is declared, with the default description and SSH open to the world |
| `UbuntuInstance.DeclaredGroupEgressIsAllOutbound` | pulumi_easy/aws/ec2/ec2.py:221-228 | every group declared by the instance path, restricted or default, gets exactly the all-traffic egress rule |
| `UbuntuInstance.InstanceArgsDetermined` | pulumi_easy/aws/ec2/ec2.py:230-247 | the inputs fix the argument dictionary completely: two dictionaries meeting its description are equal |
| `UbuntuInstance.AssembleInstanceArgs` | pulumi_easy/aws/ec2/ec2.py:230-247 | building the dictionary and inserting the profile in place yields the six fixed keys with their values, plus `iam_instance_profile` exactly when the profile is truthy |
| `UbuntuInstance.OneGroupOneVolume` | pulumi_easy/aws/ec2/ec2.py:230-247 | exactly one security-group name and one EBS device (size = `storage`) are passed; the profile key is present exactly when the profile is truthy; the dictionary has 6 or 7 keys |
| `UbuntuInstance.CreateUbuntuInstance` | pulumi_easy/aws/ec2/ec2.py:191-249 | one call issues the image query for (version, arch), chooses the group by the precedence above, and declares an instance named `name` whose arguments carry that group's name and the looked-up image id |

## Left out

- `pulumi.export` calls (the image, key-pair, group, CIDR and instance exports): a write-only process-wide side channel with no effect on what is declared.
- The behaviour of `aws.ec2.get_ami`, `aws.ec2.SecurityGroup` and `aws.ec2.Instance` (lookup, NotFound, validation, diffing): external library calls. Only their arguments are modelled, and the looked-up image id is an input.
- `create_key_pair`: a pass-through of its two arguments to `aws.ec2.KeyPair`, with no logic of its own.
- Pulumi `Output` semantics of `sg.name`, `ami.id` and `instance.id`: treated as plain values.
- CIDR validity (prefix notation of RFC 4632 section 3.1 and RFC 4291 section 2.3): the source does none, so the model adds none.
- Non-string values for the optional string arguments: Python truthiness is modelled only for `None` and strings.
