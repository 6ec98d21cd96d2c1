/**
 * Dev-server host selection: the function getNetworkIp of webpack.config.js.
 *
 * The operating system's interface table (os.networkInterfaces()) is an input:
 * either the enumerated interfaces, in the order a `for ... in` walk visits
 * them, or the marker that the enumeration threw.
 */
module HostResolver {

  /** One address record of a network interface. */
  datatype AddressInfo = AddressInfo(family: string, address: string, internal: bool)

  /** A named interface with its address records, in index order. */
  datatype Interface = Interface(name: string, aliases: seq<AddressInfo>)

  /** What the interface enumeration produced. */
  datatype Network =
    | Interfaces(entries: seq<Interface>)
    | EnumerationError

  const IPv4: string := "IPv4"
  const Loopback: string := "127.0.0.1"
  const Localhost: string := "localhost"

  /** The three-part test a record must pass to be a candidate host. */
  predicate Qualifies(a: AddressInfo) {
    a.family == IPv4 && a.address != Loopback && !a.internal
  }

  predicate HasQualifying(s: seq<AddressInfo>) {
    exists i :: 0 <= i < |s| && Qualifies(s[i])
  }

  /** Record i is the last qualifying record of s. */
  predicate IsLastQualifying(s: seq<AddressInfo>, i: int) {
    0 <= i < |s| && Qualifies(s[i]) && forall j :: i < j < |s| ==> !Qualifies(s[j])
  }

  /** All address records, interfaces in enumeration order, then by index. */
  function Flatten(ifaces: seq<Interface>): seq<AddressInfo>
    decreases |ifaces|
  {
    if ifaces == [] then []
    else Flatten(ifaces[..|ifaces| - 1]) + ifaces[|ifaces| - 1].aliases
  }

  /**
   * Reference definition of the selection: the address of the last
   * qualifying record, or "" when there is none.  The result is never the
   * address of a record that fails the test, and never the loopback literal.
   */
  function LastQualifying(s: seq<AddressInfo>): (r: string)
    ensures r == "" || exists i :: 0 <= i < |s| && Qualifies(s[i]) && s[i].address == r
    ensures r != Loopback
    decreases |s|
  {
    if s == [] then ""
    else if Qualifies(s[|s| - 1]) then s[|s| - 1].address
    else LastQualifying(s[..|s| - 1])
  }

  /** What getNetworkIp returns for a given enumeration outcome. */
  function ResolveHost(network: Network): string {
    match network
    case EnumerationError => Localhost
    case Interfaces(entries) => LastQualifying(Flatten(entries))
  }

  /**
   * The loop step: a qualifying record replaces the current host, any other
   * record leaves it unchanged.
   */
  lemma LastQualifyingSnoc(s: seq<AddressInfo>, a: AddressInfo)
    ensures Qualifies(a) ==> LastQualifying(s + [a]) == a.address
    ensures !Qualifies(a) ==> LastQualifying(s + [a]) == LastQualifying(s)
  {
  }

  lemma FlattenSnoc(ifaces: seq<Interface>, k: nat)
    requires k < |ifaces|
    ensures Flatten(ifaces[..k + 1]) == Flatten(ifaces[..k]) + ifaces[k].aliases
  {
    assert ifaces[..k + 1][..k] == ifaces[..k];
  }

  /** The reference selection really picks the last qualifying record. */
  lemma {:induction false} LastQualifyingIsLast(s: seq<AddressInfo>)
    ensures HasQualifying(s) ==>
      exists i :: IsLastQualifying(s, i) && LastQualifying(s) == s[i].address
    ensures !HasQualifying(s) ==> LastQualifying(s) == ""
    decreases |s|
  {
    if s != [] {
      var n := |s| - 1;
      var p := s[..n];
      if Qualifies(s[n]) {
        assert IsLastQualifying(s, n);
      } else {
        LastQualifyingIsLast(p);
        if HasQualifying(s) {
          var i :| 0 <= i < |s| && Qualifies(s[i]);
          assert i < n && p[i] == s[i];
          assert HasQualifying(p);
          var m :| IsLastQualifying(p, m) && LastQualifying(p) == p[m].address;
          assert IsLastQualifying(s, m);
        } else {
          assert !HasQualifying(p) by {
            forall i | 0 <= i < |p| ensures !Qualifies(p[i]) {
              assert p[i] == s[i];
            }
          }
        }
      }
    }
  }

  /** Qualifying records in a later block hide everything before them. */
  lemma {:induction false} LastQualifyingConcat(s: seq<AddressInfo>, t: seq<AddressInfo>)
    ensures LastQualifying(s + t) ==
      if HasQualifying(t) then LastQualifying(t) else LastQualifying(s)
    decreases |t|
  {
    if t == [] {
      assert s + t == s;
    } else {
      var n := |t| - 1;
      var u := t[..n];
      assert s + t == (s + u) + [t[n]];
      assert t == u + [t[n]];
      LastQualifyingSnoc(s + u, t[n]);
      LastQualifyingSnoc(u, t[n]);
      LastQualifyingConcat(s, u);
      if !Qualifies(t[n]) {
        assert HasQualifying(t) == HasQualifying(u) by {
          if HasQualifying(t) {
            var i :| 0 <= i < |t| && Qualifies(t[i]);
            assert i < n && u[i] == t[i];
          }
          if HasQualifying(u) {
            var i :| 0 <= i < |u| && Qualifies(u[i]);
            assert t[i] == u[i];
          }
        }
      } else {
        assert HasQualifying(t);
      }
    }
  }

  predicate ValidPos(ifaces: seq<Interface>, k: int, j: int) {
    0 <= k < |ifaces| && 0 <= j < |ifaces[k].aliases|
  }

  /** Address j of interface k exists and passes the test. */
  predicate QualifiesAt(ifaces: seq<Interface>, k: int, j: int) {
    ValidPos(ifaces, k, j) && Qualifies(ifaces[k].aliases[j])
  }

  ghost predicate AnyQualifies(ifaces: seq<Interface>) {
    exists k, j :: QualifiesAt(ifaces, k, j)
  }

  /**
   * Address j of interface k qualifies and no qualifying record comes after
   * it in iteration order (later interface, or same interface, later index).
   */
  ghost predicate IsLastQualifyingPos(ifaces: seq<Interface>, k: int, j: int) {
    QualifiesAt(ifaces, k, j) &&
    forall k', j' :: QualifiesAt(ifaces, k', j') ==> k' < k || (k' == k && j' <= j)
  }

  /**
   * getNetworkIp's answer on a successful enumeration, stated on the nested
   * structure: "" when no record of any interface qualifies (also when there
   * are no interfaces or they have no addresses), otherwise the address of
   * the last qualifying record in iteration order.
   */
  lemma {:induction false} ResolveHostInOrder(ifaces: seq<Interface>)
    ensures !AnyQualifies(ifaces) ==> ResolveHost(Interfaces(ifaces)) == ""
    ensures AnyQualifies(ifaces) ==>
      exists k, j :: IsLastQualifyingPos(ifaces, k, j) &&
        ResolveHost(Interfaces(ifaces)) == ifaces[k].aliases[j].address
    decreases |ifaces|
  {
    if ifaces == [] {
      assert !AnyQualifies(ifaces);
    } else {
      var n := |ifaces| - 1;
      var p := ifaces[..n];
      var last := ifaces[n].aliases;
      assert Flatten(ifaces) == Flatten(p) + last;
      LastQualifyingConcat(Flatten(p), last);
      if HasQualifying(last) {
        LastQualifyingIsLast(last);
        var j :| IsLastQualifying(last, j) && LastQualifying(last) == last[j].address;
        assert QualifiesAt(ifaces, n, j);
        assert IsLastQualifyingPos(ifaces, n, j);
      } else {
        ResolveHostInOrder(p);
        assert ResolveHost(Interfaces(ifaces)) == ResolveHost(Interfaces(p));
        forall k, j ensures QualifiesAt(ifaces, k, j) <==> QualifiesAt(p, k, j) {
          if k == n && 0 <= j < |last| {
            assert !Qualifies(last[j]);
          }
          if 0 <= k < n {
            assert p[k] == ifaces[k];
          }
        }
        if AnyQualifies(ifaces) {
          var k0, j0 :| QualifiesAt(ifaces, k0, j0);
          assert QualifiesAt(p, k0, j0);
          var k, j :| IsLastQualifyingPos(p, k, j) &&
            ResolveHost(Interfaces(p)) == p[k].aliases[j].address;
          assert p[k] == ifaces[k];
          assert IsLastQualifyingPos(ifaces, k, j);
        } else {
          assert !AnyQualifies(p);
        }
      }
    }
  }

  /**
   * getNetworkIp: walks every interface and every address index, keeping the
   * most recent qualifying address; a failed enumeration yields "localhost".
   */
  method GetNetworkIp(network: Network) returns (needHost: string)
    ensures needHost == ResolveHost(network)
    ensures network.EnumerationError? ==> needHost == Localhost
  {
    needHost := "";
    match network {
      case EnumerationError =>
        needHost := Localhost;
      case Interfaces(entries) =>
        for k := 0 to |entries|
          invariant needHost == LastQualifying(Flatten(entries[..k]))
        {
          var iface := entries[k].aliases;
          assert Flatten(entries[..k]) + iface[..0] == Flatten(entries[..k]);
          for i := 0 to |iface|
            invariant needHost == LastQualifying(Flatten(entries[..k]) + iface[..i])
          {
            var alias := iface[i];
            assert iface[..i + 1] == iface[..i] + [alias];
            assert Flatten(entries[..k]) + iface[..i + 1] ==
              (Flatten(entries[..k]) + iface[..i]) + [alias];
            LastQualifyingSnoc(Flatten(entries[..k]) + iface[..i], alias);
            if Qualifies(alias) {
              needHost := alias.address;
            }
          }
          assert iface[..|iface|] == iface;
          FlattenSnoc(entries, k);
        }
        assert entries[..|entries|] == entries;
    }
  }

  // Example interface tables.

  /** A lone internal loopback record yields "". */
  lemma LoopbackOnly()
    ensures ResolveHost(Interfaces([Interface("eth0", [AddressInfo("IPv4", "127.0.0.1", true)])])) == ""
  {
  }

  /** A lone external IPv4 record is selected. */
  lemma SingleExternal()
    ensures ResolveHost(Interfaces([Interface("eth0", [AddressInfo("IPv4", "192.168.1.5", false)])]))
      == "192.168.1.5"
  {
  }

  /** With two qualifying interfaces, the later one wins. */
  lemma LaterInterfaceWins()
    ensures ResolveHost(Interfaces([
      Interface("eth0", [AddressInfo("IPv4", "10.0.0.2", false)]),
      Interface("wlan0", [AddressInfo("IPv4", "192.168.1.5", false)])])) == "192.168.1.5"
  {
  }

  /**
   * A qualifying record whose address is empty makes the result "" even
   * though a record passed the test: "" alone does not mean nothing
   * qualified.
   */
  lemma EmptyAddressQualifies()
    ensures AnyQualifies([Interface("eth0", [AddressInfo("IPv4", "", false)])])
    ensures ResolveHost(Interfaces([Interface("eth0", [AddressInfo("IPv4", "", false)])])) == ""
  {
    assert QualifiesAt([Interface("eth0", [AddressInfo("IPv4", "", false)])], 0, 0);
  }
}
