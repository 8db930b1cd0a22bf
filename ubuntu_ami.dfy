/**
 * The image query that `EC2Manager.get_ubuntu_ami` hands to the image lookup:
 * a name pattern derived from the Ubuntu release, the hardware-virtualisation
 * filter and Canonical's publisher account. The lookup itself is external; only
 * its arguments are modelled.
 */
module UbuntuAmi {
  import opened Common

  /** Canonical's AWS account, the only image owner the query accepts. */
  const CanonicalOwner: string := "099720109477"
  const ImagesPrefix: string := "ubuntu/images/"
  const ServerSuffix: string := "-server-*"

  const FocalFragment: string := "hvm-ssd/ubuntu-focal-20.04"
  const JammyFragment: string := "hvm-ssd/ubuntu-jammy-22.04"
  const NobleFragment: string := "hvm-ssd-gp3/ubuntu-noble-24.04"

  /** One entry of the lookup's `filters` list. */
  datatype Filter = Filter(name: string, values: seq<string>)

  /** The arguments of the image lookup: most_recent, filters and owners. */
  datatype AmiQuery = AmiQuery(mostRecent: bool, filters: seq<Filter>, owners: seq<string>)

  /** The releases with a fixed fragment. */
  predicate IsKnownRelease(version: string) {
    version == "20.04" || version == "22.04" || version == "24.04"
  }

  /** The image-name fragment of a release: a fixed, case-sensitive table, else a wildcard. */
  function UbuntuNameFragment(version: string): string {
    if version == "20.04" then FocalFragment
    else if version == "22.04" then JammyFragment
    else if version == "24.04" then NobleFragment
    else "*-" + version
  }

  /** Reads the release back out of a name fragment; the inverse of UbuntuNameFragment. */
  function VersionOfFragment(fragment: string): Option<string> {
    if fragment == FocalFragment then Some("20.04")
    else if fragment == JammyFragment then Some("22.04")
    else if fragment == NobleFragment then Some("24.04")
    else if StartsWith(fragment, "*-") then Some(fragment[2..])
    else None
  }

  /** The three known releases map to their fixed fragments, everything else to `*-version`. */
  lemma KnownReleaseFragments(version: string)
    ensures UbuntuNameFragment("20.04") == "hvm-ssd/ubuntu-focal-20.04"
    ensures UbuntuNameFragment("22.04") == "hvm-ssd/ubuntu-jammy-22.04"
    ensures UbuntuNameFragment("24.04") == "hvm-ssd-gp3/ubuntu-noble-24.04"
    ensures !IsKnownRelease(version) ==> UbuntuNameFragment(version) == "*-" + version
  {
  }

  /** No release is lost by the mapping: the fragment names the release it came from. */
  lemma FragmentRoundTrip(version: string)
    ensures VersionOfFragment(UbuntuNameFragment(version)) == Some(version)
  {
    var f := UbuntuNameFragment(version);
    if !IsKnownRelease(version) {
      assert f == "*-" + version;
      assert f[0] == '*';
      assert FocalFragment[0] == 'h' && JammyFragment[0] == 'h' && NobleFragment[0] == 'h';
      assert f[..2] == "*-";
      assert f[2..] == version;
    }
  }

  /** Different releases never share a fragment, including a wildcard one. */
  lemma FragmentInjective(v1: string, v2: string)
    requires UbuntuNameFragment(v1) == UbuntuNameFragment(v2)
    ensures v1 == v2
  {
    FragmentRoundTrip(v1);
    FragmentRoundTrip(v2);
  }

  /**
   * The value of the `name` filter. It starts with the images prefix followed
   * by the fragment, and ends with the architecture followed by `-server-*`.
   */
  function NameFilterValue(version: string, arch: string): (pattern: string)
    ensures StartsWith(pattern, ImagesPrefix + UbuntuNameFragment(version) + "-")
    ensures EndsWith(pattern, "-" + arch + ServerSuffix)
    ensures StartsWith(pattern, ImagesPrefix) && EndsWith(pattern, ServerSuffix)
  {
    var head := ImagesPrefix + UbuntuNameFragment(version) + "-";
    var tail := "-" + arch + ServerSuffix;
    var pattern := head + arch + ServerSuffix;
    assert pattern == head + (arch + ServerSuffix);
    assert pattern == ImagesPrefix + (UbuntuNameFragment(version) + "-" + arch) + ServerSuffix;
    assert pattern == (ImagesPrefix + UbuntuNameFragment(version)) + tail;
    pattern
  }

  /** The full query for a release and an architecture. */
  function UbuntuAmiQuery(version: string, arch: string): (q: AmiQuery)
    ensures q.mostRecent
    ensures |q.filters| == 2
    ensures q.filters[0].name == "name" && q.filters[0].values == [NameFilterValue(version, arch)]
    ensures q.filters[1] == Filter("virtualization-type", ["hvm"])
    ensures q.owners == [CanonicalOwner]
  {
    AmiQuery(
      true,
      [Filter("name", [NameFilterValue(version, arch)]), Filter("virtualization-type", ["hvm"])],
      [CanonicalOwner])
  }

  /** For one architecture, the query tells the releases apart. */
  lemma QueryDeterminesVersion(v1: string, v2: string, arch: string)
    requires UbuntuAmiQuery(v1, arch) == UbuntuAmiQuery(v2, arch)
    ensures v1 == v2
  {
    var p1, p2 := NameFilterValue(v1, arch), NameFilterValue(v2, arch);
    assert p1 == UbuntuAmiQuery(v1, arch).filters[0].values[0];
    var tail := "-" + arch + ServerSuffix;
    var h1, h2 := ImagesPrefix + UbuntuNameFragment(v1), ImagesPrefix + UbuntuNameFragment(v2);
    assert p1 == h1 + tail && p2 == h2 + tail;
    assert h1 == p1[..|p1| - |tail|];
    assert h2 == p2[..|p2| - |tail|];
    assert UbuntuNameFragment(v1) == h1[|ImagesPrefix|..];
    assert UbuntuNameFragment(v2) == h2[|ImagesPrefix|..];
    FragmentInjective(v1, v2);
  }

  /** For one release, the query tells the architectures apart. */
  lemma QueryDeterminesArch(version: string, a1: string, a2: string)
    requires UbuntuAmiQuery(version, a1) == UbuntuAmiQuery(version, a2)
    ensures a1 == a2
  {
    var p1, p2 := NameFilterValue(version, a1), NameFilterValue(version, a2);
    assert p1 == UbuntuAmiQuery(version, a1).filters[0].values[0];
    var head := ImagesPrefix + UbuntuNameFragment(version) + "-";
    assert p1 == head + a1 + ServerSuffix && p2 == head + a2 + ServerSuffix;
    assert a1 == p1[|head|..|p1| - |ServerSuffix|];
    assert a2 == p2[|head|..|p2| - |ServerSuffix|];
  }

  /**
   * The wildcard fallback joins release and architecture with the same `-` that
   * separates them, so an unknown release containing `-` can yield the very
   * query another release and architecture yield.
   */
  lemma WildcardQueryAmbiguous(u: string, v: string, w: string)
    requires !IsKnownRelease(u) && !IsKnownRelease(u + "-" + v)
    ensures UbuntuAmiQuery(u + "-" + v, w) == UbuntuAmiQuery(u, v + "-" + w)
  {
    var x, y := "*-" + u, v + "-" + w;
    assert UbuntuNameFragment(u + "-" + v) == (x + "-") + v;
    assert UbuntuNameFragment(u) == x;
    assert ((x + "-") + v) + "-" == (x + "-") + (v + "-");
    assert (x + "-") + (v + "-") + w == (x + "-") + y;
    NameFilterMiddle(u + "-" + v, w);
    NameFilterMiddle(u, y);
  }

  /** The name filter is the prefix, then fragment `-` architecture, then the suffix. */
  lemma NameFilterMiddle(version: string, arch: string)
    ensures NameFilterValue(version, arch) == ImagesPrefix + (UbuntuNameFragment(version) + "-" + arch) + ServerSuffix
  {
  }
}
