/**
 GetNodeAddresses of pkg/util/utils.go (and its copy in old_pkg/util/utils.go): the
 addresses of a Kubernetes node listed internal IPs first, then external IPs, then host
 names, each group in the order the node reports it; DNS names are not listed.
 */
module NodeAddresses {

  /** The address types a Kubernetes node reports (corev1.NodeAddressType). */
  datatype AddressType = Hostname | ExternalIP | InternalIP | ExternalDNS | InternalDNS

  datatype NodeAddress = NodeAddress(kind: AddressType, address: string)

  /** The addresses of type `t`, in input order. */
  function OfType(addrs: seq<NodeAddress>, t: AddressType): seq<string> {
    if |addrs| == 0 then []
    else OfType(addrs[..|addrs| - 1], t)
         + (if addrs[|addrs| - 1].kind == t then [addrs[|addrs| - 1].address] else [])
  }

  /** The order GetNodeAddresses promises. */
  function Ordered(addrs: seq<NodeAddress>): seq<string> {
    OfType(addrs, InternalIP) + OfType(addrs, ExternalIP) + OfType(addrs, Hostname)
  }

  /** The types GetNodeAddresses lists. */
  predicate Listed(t: AddressType) {
    t == InternalIP || t == ExternalIP || t == Hostname
  }

  /** One append loop of GetNodeAddresses: the addresses of type `t` go after `addrs`. */
  method AppendOfType(nodeAddresses: seq<NodeAddress>, t: AddressType, addrs: seq<string>) returns (r: seq<string>)
    ensures r == addrs + OfType(nodeAddresses, t)
  {
    r := addrs;
    var i := 0;
    while i < |nodeAddresses|
      invariant 0 <= i <= |nodeAddresses|
      invariant r == addrs + OfType(nodeAddresses[..i], t)
    {
      assert nodeAddresses[..i + 1][..i] == nodeAddresses[..i];
      if nodeAddresses[i].kind == t {
        r := r + [nodeAddresses[i].address];
      }
      i := i + 1;
    }
    assert nodeAddresses[..i] == nodeAddresses;
  }

  method GetNodeAddresses(nodeAddresses: seq<NodeAddress>) returns (addrs: seq<string>)
    ensures addrs == Ordered(nodeAddresses)
  {
    addrs := [];
    addrs := AppendOfType(nodeAddresses, InternalIP, addrs);
    addrs := AppendOfType(nodeAddresses, ExternalIP, addrs);
    addrs := AppendOfType(nodeAddresses, Hostname, addrs);
  }

  /** Filtering by type distributes over concatenation: the input order is kept. */
  lemma {:induction false} OfTypeAppend(a: seq<NodeAddress>, b: seq<NodeAddress>, t: AddressType)
    ensures OfType(a + b, t) == OfType(a, t) + OfType(b, t)
    decreases |b|
  {
    if |b| > 0 {
      var b' := b[..|b| - 1];
      assert (a + b)[..|a + b| - 1] == a + b';
      assert (a + b)[|a + b| - 1] == b[|b| - 1];
      OfTypeAppend(a, b', t);
    } else {
      assert a + b == a;
    }
  }

  /** An address is listed under type `t` iff the node reports it with that type. */
  lemma {:induction false} OfTypeMembers(addrs: seq<NodeAddress>, t: AddressType, x: string)
    ensures x in OfType(addrs, t) <==> exists i :: 0 <= i < |addrs| && addrs[i] == NodeAddress(t, x)
    decreases |addrs|
  {
    if |addrs| > 0 {
      var init := addrs[..|addrs| - 1];
      OfTypeMembers(init, t, x);
      if exists i :: 0 <= i < |init| && init[i] == NodeAddress(t, x) {
        var i :| 0 <= i < |init| && init[i] == NodeAddress(t, x);
        assert addrs[i] == init[i];
      }
      if exists i :: 0 <= i < |addrs| && addrs[i] == NodeAddress(t, x) {
        var i :| 0 <= i < |addrs| && addrs[i] == NodeAddress(t, x);
        if i < |init| {
          assert init[i] == addrs[i];
        }
      }
    }
  }

  /** An address is in the result iff the node reports it as an internal IP, an external
      IP or a host name. */
  lemma OrderedMembers(addrs: seq<NodeAddress>, x: string)
    ensures x in Ordered(addrs) <==>
              exists i :: 0 <= i < |addrs| && Listed(addrs[i].kind) && addrs[i].address == x
  {
    OfTypeMembers(addrs, InternalIP, x);
    OfTypeMembers(addrs, ExternalIP, x);
    OfTypeMembers(addrs, Hostname, x);
    if exists i :: 0 <= i < |addrs| && Listed(addrs[i].kind) && addrs[i].address == x {
      var i :| 0 <= i < |addrs| && Listed(addrs[i].kind) && addrs[i].address == x;
      assert addrs[i] == NodeAddress(addrs[i].kind, x);
    }
  }

  /** The result has one entry per internal IP, external IP and host name: never more
      entries than the node has addresses, and exactly as many iff it has no DNS names. */
  lemma {:induction false} OrderedLength(addrs: seq<NodeAddress>)
    ensures |Ordered(addrs)| <= |addrs|
    ensures |Ordered(addrs)| == |addrs| <==> forall i :: 0 <= i < |addrs| ==> Listed(addrs[i].kind)
    decreases |addrs|
  {
    if |addrs| > 0 {
      var init := addrs[..|addrs| - 1];
      OrderedLength(init);
      if forall i :: 0 <= i < |init| ==> Listed(init[i].kind) {
        if Listed(addrs[|addrs| - 1].kind) {
          forall i | 0 <= i < |addrs|
            ensures Listed(addrs[i].kind)
          {
            if i < |init| {
              assert addrs[i] == init[i];
            }
          }
        }
      } else {
        var i :| 0 <= i < |init| && !Listed(init[i].kind);
        assert addrs[i] == init[i];
      }
    }
  }

  /** An address of any other type leaves the result as it was. */
  lemma UnlistedDropped(addrs: seq<NodeAddress>, a: NodeAddress)
    requires !Listed(a.kind)
    ensures Ordered(addrs + [a]) == Ordered(addrs)
  {
    assert (addrs + [a])[..|addrs|] == addrs;
  }

  /** A node reporting its host name, external IP and internal IP in that order gets them
      back internal IP first, then external IP, then host name. */
  lemma ReversedNodeExample(hostname: string, external: string, internal: string)
    ensures Ordered([NodeAddress(Hostname, hostname), NodeAddress(ExternalIP, external),
                     NodeAddress(InternalIP, internal)]) == [internal, external, hostname]
  {
    var a := [NodeAddress(Hostname, hostname), NodeAddress(ExternalIP, external),
              NodeAddress(InternalIP, internal)];
    var p1 := [a[0]];
    var p2 := [a[0], a[1]];
    assert p1[..0] == [] && p2[..1] == p1 && a[..2] == p2;
    assert OfType(p1, Hostname) == OfType(p1[..0], Hostname) + [hostname] == [] + [hostname];
    assert OfType(p1, InternalIP) == [] && OfType(p1, ExternalIP) == [] && OfType(p1, Hostname) == [hostname];
    assert OfType(p2, InternalIP) == [] && OfType(p2, ExternalIP) == [external] && OfType(p2, Hostname) == [hostname];
  }

  /** A node without addresses gets an empty list. */
  lemma EmptyNodeExample()
    ensures Ordered([]) == []
  {
  }
}
