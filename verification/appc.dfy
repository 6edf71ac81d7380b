// The app connector's domain table (appc/appconnector.go): sorted address lists
// per domain, and their hand-over when the configured domains change.
module AppConnectors {
  import opened Common
  import Ports

  // An address, numbered in the order of netip.Addr.Compare.
  type Addr = nat

  type Domains = map<string, seq<Addr>>

  // ---- Sorted lists ----

  ghost predicate StrictlySorted(s: seq<Addr>) { forall i, j :: 0 <= i < j < |s| ==> s[i] < s[j] }

  ghost predicate Sorted(s: seq<Addr>) { forall i, j :: 0 <= i < j < |s| ==> s[i] <= s[j] }

  // slices.BinarySearchFunc: in a sorted list it finds exactly the members.
  method BinarySearch(s: seq<Addr>, a: Addr) returns (i: nat, found: bool)
    requires Sorted(s)
    ensures found <==> a in s
    ensures i <= |s| && (forall k :: 0 <= k < i ==> s[k] < a) && (forall k :: i <= k < |s| ==> s[k] >= a)
  {
    i := 0;
    var j := |s|;
    while i < j
      invariant 0 <= i <= j <= |s|
      invariant forall k :: 0 <= k < i ==> s[k] < a
      invariant forall k :: j <= k < |s| ==> s[k] >= a
    {
      var h := (i + j) / 2;
      if s[h] < a {
        i := h + 1;
      } else {
        j := h;
      }
    }
    found := i < |s| && s[i] == a;
  }

  // The sorted list with one more element.
  function Insert(s: seq<Addr>, i: nat, a: Addr): seq<Addr>
    requires i <= |s|
  {
    s[..i] + [a] + s[i..]
  }

  lemma InsertSorts(s: seq<Addr>, i: nat, a: Addr)
    requires Sorted(s) && i <= |s| && (forall k :: 0 <= k < i ==> s[k] < a) && (forall k :: i <= k < |s| ==> s[k] >= a)
    ensures Sorted(Insert(s, i, a)) && multiset(Insert(s, i, a)) == multiset(s + [a])
    ensures StrictlySorted(s) && a !in s ==> StrictlySorted(Insert(s, i, a))
  {
    InsertSameElements(s, i, a);
    InsertOrdered(s, i, a);
    if StrictlySorted(s) && a !in s {
      InsertStrict(s, i, a);
    }
  }

  lemma InsertSameElements(s: seq<Addr>, i: nat, a: Addr)
    requires i <= |s|
    ensures multiset(Insert(s, i, a)) == multiset(s + [a])
  {
    assert s == s[..i] + s[i..];
    assert multiset(Insert(s, i, a)) == multiset(s[..i]) + multiset{a} + multiset(s[i..]);
  }

  lemma InsertOrdered(s: seq<Addr>, i: nat, a: Addr)
    requires Sorted(s) && i <= |s| && (forall k :: 0 <= k < i ==> s[k] < a) && (forall k :: i <= k < |s| ==> s[k] >= a)
    ensures Sorted(Insert(s, i, a))
  {
    var r := Insert(s, i, a);
    assert forall k :: 0 <= k < |r| ==> r[k] == (if k < i then s[k] else if k == i then a else s[k - 1]);
  }

  lemma InsertStrict(s: seq<Addr>, i: nat, a: Addr)
    requires StrictlySorted(s) && a !in s && i <= |s| && (forall k :: 0 <= k < i ==> s[k] < a) && (forall k :: i <= k < |s| ==> s[k] >= a)
    ensures StrictlySorted(Insert(s, i, a))
  {
    var r := Insert(s, i, a);
    assert forall k :: 0 <= k < |r| ==> r[k] == (if k < i then s[k] else if k == i then a else s[k - 1]);
    assert forall k :: i <= k < |s| ==> s[k] in s && s[k] != a;
  }

  // slices.SortFunc as it is called here, on a sorted list with one address
  // appended.
  method SortAppended(s: seq<Addr>, a: Addr) returns (r: seq<Addr>)
    requires Sorted(s)
    ensures Sorted(r) && multiset(r) == multiset(s + [a])
    ensures StrictlySorted(s) && a !in s ==> StrictlySorted(r)
  {
    var i, _ := BinarySearch(s, a);
    InsertSorts(s, i, a);
    r := Insert(s, i, a);
  }

  // ---- Domain names ----

  function TrimSuffix(s: string, x: string): string {
    if |x| <= |s| && s[|s| - |x|..] == x then s[..|s| - |x|] else s
  }

  function TrimPrefix(s: string, x: string): string { if x <= s then s[|x|..] else s }

  // dnsname.HasSuffix.
  predicate HasSuffix(name: string, suffix: string) {
    var n := TrimSuffix(name, ".");
    var base := TrimSuffix(n, TrimPrefix(TrimSuffix(suffix, "."), "."));
    |base| < |n| && base != [] && Last(base) == '.'
  }

  // What one entry of the configured list means.
  predicate Wild(d: string) { "*." <= d }

  // The plain entries, in order and in lower case.
  function Listed(ds: seq<string>): seq<string> {
    if ds == [] then []
    else
      var p, d := Listed(ds[..|ds| - 1]), Ports.Lower(Last(ds));
      if d == [] || Wild(d) then p else p + [d]
  }

  function Wildcards(ds: seq<string>): seq<string> {
    if ds == [] then []
    else
      var p, d := Wildcards(ds[..|ds| - 1]), Ports.Lower(Last(ds));
      if Wild(d) then p + [d[2..]] else p
  }

  ghost predicate Matched(wildcards: seq<string>, d: string) { exists w :: w in wildcards && HasSuffix(d, w) }

  // ---- Replacing the domains ----

  function AddrsOf(m: Domains, d: string): seq<Addr> { if d in m then m[d] else [] }

  // The first loop on values: a listed domain takes its addresses along, once.
  function Take(old0: Domains, listed: seq<string>): Domains {
    if listed == [] then map[]
    else
      var p, d := listed[..|listed| - 1], Last(listed);
      Take(old0, p)[d := if d in p then [] else AddrsOf(old0, d)]
  }

  // The table after the update.
  ghost predicate Updated(old0: Domains, ds: seq<string>, new0: Domains) {
    && (forall d :: d in new0 <==> d in Listed(ds) || (d in old0 && Matched(Wildcards(ds), d)))
    && (forall d | d in Listed(ds) :: d in Take(old0, Listed(ds)) && new0[d] == Take(old0, Listed(ds))[d])
    && (forall d | d in new0 && d !in Listed(ds) :: new0[d] == old0[d])
  }

  // The domains that are dropped.
  ghost predicate DroppedDomain(old0: Domains, ds: seq<string>, d: string) {
    d in old0 && d !in Listed(ds) && !Matched(Wildcards(ds), d)
  }

  lemma ListedGrows(ds: seq<string>, i: nat)
    requires i < |ds|
    ensures var d := Ports.Lower(ds[i]);
            && Listed(ds[..i + 1]) == (if d == [] || Wild(d) then Listed(ds[..i]) else Listed(ds[..i]) + [d])
            && Wildcards(ds[..i + 1]) == (if Wild(d) then Wildcards(ds[..i]) + [d[2..]] else Wildcards(ds[..i]))
  {
    assert ds[..i + 1][..i] == ds[..i];
  }

  lemma TakeGrows(old0: Domains, listed: seq<string>, d: string)
    ensures Take(old0, listed + [d]) == Take(old0, listed)[d := if d in listed then [] else AddrsOf(old0, d)]
  {
    assert (listed + [d])[..|listed|] == listed;
  }

  lemma {:induction false} TakeKeys(old0: Domains, listed: seq<string>)
    ensures forall d :: d in Take(old0, listed) <==> d in listed
  {
    if listed != [] {
      TakeKeys(old0, listed[..|listed| - 1]);
      assert listed == listed[..|listed| - 1] + [Last(listed)];
    }
  }

  ghost predicate Twice(l: seq<string>, d: string) { exists i, j :: 0 <= i < j < |l| && l[i] == d && l[j] == d }

  lemma TwiceGrows(l: seq<string>, e: string, d: string)
    ensures Twice(l + [e], d) <==> Twice(l, d) || (e == d && d in l)
  {
    var l' := l + [e];
    if Twice(l, d) {
      var i, j :| 0 <= i < j < |l| && l[i] == d && l[j] == d;
      assert l'[i] == d && l'[j] == d;
    }
    if e == d && d in l {
      var i :| 0 <= i < |l| && l[i] == d;
      assert l'[i] == d && l'[|l|] == d;
    }
    if Twice(l', d) {
      var i, j :| 0 <= i < j < |l'| && l'[i] == d && l'[j] == d;
      assert l[i] == d;
      assert j < |l| ==> l[j] == d;
    }
  }

  // A domain listed once keeps its addresses; listed again it loses them.
  lemma {:induction false} TakeValue(old0: Domains, listed: seq<string>, d: string)
    requires d in listed
    ensures d in Take(old0, listed)
    ensures Take(old0, listed)[d] == if Twice(listed, d) then [] else AddrsOf(old0, d)
  {
    var p, e := listed[..|listed| - 1], Last(listed);
    assert listed == p + [e];
    TwiceGrows(p, e, d);
    if e != d {
      TakeValue(old0, p, d);
    } else if d !in p {
      assert !Twice(p, d);
    }
  }

  // After the update every old pair of a domain and an address is kept or
  // dropped, never both; none is lost exactly when no domain with addresses is
  // listed twice.
  lemma PartitionIff(old0: Domains, ds: seq<string>, new0: Domains)
    requires Updated(old0, ds, new0)
    ensures (forall d, a | d in old0 && a in old0[d] :: a in AddrsOf(new0, d) || DroppedDomain(old0, ds, d))
            <==> (forall d | d in old0 && old0[d] != [] :: !Twice(Listed(ds), d))
    ensures forall d | DroppedDomain(old0, ds, d) :: d !in new0
  {
    forall d | d in old0 && d in Listed(ds)
      ensures AddrsOf(new0, d) == if Twice(Listed(ds), d) then [] else old0[d]
    {
      TakeValue(old0, Listed(ds), d);
    }
    forall d | d in old0 && d !in Listed(ds)
      ensures !Twice(Listed(ds), d)
      ensures forall a | a in old0[d] :: a in AddrsOf(new0, d) || DroppedDomain(old0, ds, d)
    {
    }
    if d :| d in old0 && old0[d] != [] && Twice(Listed(ds), d) {
      assert old0[d][0] in old0[d] && d in Listed(ds);
      assert old0[d][0] !in AddrsOf(new0, d) && !DroppedDomain(old0, ds, d);
    }
  }

  // A domain listed twice, for instance, loses its addresses and nothing
  // withdraws them.
  lemma ListedTwiceLoses(d: string, addrs: seq<Addr>, new0: Domains)
    requires d != [] && !Wild(d) && Ports.Lower(d) == d && addrs != []
    requires Updated(map[d := addrs], [d, d], new0)
    ensures d in new0 && new0[d] == [] && !DroppedDomain(map[d := addrs], [d, d], d)
  {
    assert [d, d][..1] == [d] && [d][..0] == [];
    assert Listed([d]) == [d] && Listed([d, d]) == [d, d];
    TakeGrows(map[d := addrs], [d], d);
    assert [d] + [d] == [d, d];
  }

  lemma MatchedMore(wildcards: seq<string>, i: nat, d: string)
    requires i < |wildcards|
    ensures Matched(wildcards[..i + 1], d) <==> Matched(wildcards[..i], d) || HasSuffix(d, wildcards[i])
    ensures HasSuffix(d, wildcards[i]) ==> Matched(wildcards, d)
  {
    TakeMore(wildcards, i);
    assert wildcards[i] in wildcards[..i + 1] && wildcards[i] in wildcards;
  }

  // The inner loop over the wildcards, stopping at the first match.
  method AnyMatches(wildcards: seq<string>, d: string) returns (live: bool)
    ensures live <==> Matched(wildcards, d)
  {
    for i := 0 to |wildcards|
      invariant !Matched(wildcards[..i], d)
    {
      MatchedMore(wildcards, i, d);
      if HasSuffix(d, wildcards[i]) {
        return true;
      }
    }
    assert wildcards[..|wildcards|] == wildcards;
    return false;
  }

  class AppConnector {
    const hasStoredRoutes: bool
    var domains: Domains
    var wildcards: seq<string>
    var controlRoutes: seq<Addr -> bool>
    // The addresses whose routes were withdrawn, and the batches advertised.
    var unadvertised: seq<Addr>

    ghost predicate Valid()
      reads this
    {
      forall d | d in domains :: StrictlySorted(domains[d])
    }

    constructor (hasStoredRoutes: bool, stored: Domains, wildcards: seq<string>, controlRoutes: seq<Addr -> bool>)
      requires forall d | d in stored :: StrictlySorted(stored[d])
      ensures Valid() && domains == stored && this.wildcards == wildcards && unadvertised == []
    {
      this.hasStoredRoutes, domains, unadvertised := hasStoredRoutes, stored, [];
      this.wildcards, this.controlRoutes := wildcards, controlRoutes;
    }

    method HasDomainAddrLocked(domain: string, a: Addr) returns (known: bool)
      requires Valid()
      ensures known <==> a in AddrsOf(domains, domain)
    {
      var s := AddrsOf(domains, domain);
      assert StrictlySorted(s) && Sorted(s);
      var _, found := BinarySearch(s, a);
      known := found;
    }

    // Does not look for duplicates; without one the list stays strict.
    method AddDomainAddrLocked(domain: string, a: Addr)
      requires Valid()
      modifies `domains
      ensures a !in AddrsOf(old(domains), domain) ==> Valid()
      ensures domain in domains && Sorted(domains[domain])
      ensures multiset(domains[domain]) == multiset(AddrsOf(old(domains), domain) + [a])
      ensures domains == old(domains)[domain := domains[domain]]
    {
      var s := AddrsOf(domains, domain);
      var r := SortAppended(s, a);
      domains := domains[domain := r];
    }

    // Known when recorded for the domain or inside a route from control, which
    // records it.
    method IsAddrKnownLocked(domain: string, a: Addr) returns (known: bool)
      requires Valid()
      modifies `domains
      ensures Valid() && (known <==> a in AddrsOf(old(domains), domain) || exists r :: r in controlRoutes && r(a))
      ensures known <==> a in AddrsOf(domains, domain)
      ensures forall d | d != domain :: AddrsOf(domains, d) == AddrsOf(old(domains), d)
    {
      var has := HasDomainAddrLocked(domain, a);
      if has {
        return true;
      }
      for i := 0 to |controlRoutes|
        invariant domains == old(domains)
        invariant forall k :: 0 <= k < i ==> !controlRoutes[k](a)
      {
        if controlRoutes[i](a) {
          AddDomainAddrLocked(domain, a);
          assert a in multiset(domains[domain]);
          assert controlRoutes[i] in controlRoutes;
          return true;
        }
      }
      return false;
    }

    // The part of scheduleAdvertisement that records the single-address routes
    // once they are advertised.
    method RecordAdvertised(domain: string, addrs: seq<Addr>)
      requires Valid()
      modifies `domains
      ensures Valid() && forall a :: a in AddrsOf(domains, domain) <==> a in AddrsOf(old(domains), domain) || a in addrs
      ensures forall d | d != domain :: AddrsOf(domains, d) == AddrsOf(old(domains), d)
    {
      for i := 0 to |addrs|
        invariant Valid()
        invariant forall a :: a in AddrsOf(domains, domain) <==> a in AddrsOf(old(domains), domain) || a in addrs[..i]
        invariant forall d | d != domain :: AddrsOf(domains, d) == AddrsOf(old(domains), d)
      {
        var a := addrs[i];
        ghost var s := AddrsOf(domains, domain);
        assert addrs[..i + 1] == addrs[..i] + [a];
        var has := HasDomainAddrLocked(domain, a);
        if !has {
          AddDomainAddrLocked(domain, a);
          assert forall x :: x in domains[domain] <==> x in multiset(domains[domain]);
          assert forall x :: x in s + [a] <==> x in multiset(s + [a]);
        }
      }
      assert addrs[..|addrs|] == addrs;
    }

    // The listed domains take their addresses along; the rest is left over.
    method TakeListed(ds: seq<string>) returns (left: Domains)
      modifies `domains, `wildcards
      ensures domains == Take(old(domains), Listed(ds)) && wildcards == Wildcards(ds)
      ensures forall d :: d in left <==> d in old(domains) && d !in Listed(ds)
      ensures forall d | d in left :: left[d] == old(domains)[d]
    {
      left := domains;
      domains, wildcards := map[], [];
      for i := 0 to |ds|
        invariant domains == Take(old(domains), Listed(ds[..i])) && wildcards == Wildcards(ds[..i])
        invariant forall d :: d in left <==> d in old(domains) && d !in Listed(ds[..i])
        invariant forall d | d in left :: left[d] == old(domains)[d]
      {
        ListedGrows(ds, i);
        var d := Ports.Lower(ds[i]);
        if |d| == 0 {
          continue;
        }
        if "*." <= d {
          wildcards := wildcards + [d[2..]];
          continue;
        }
        TakeGrows(old(domains), Listed(ds[..i]), d);
        domains := domains[d := AddrsOf(left, d)];
        left := left - {d};
      }
      assert ds[..|ds|] == ds;
    }

    // Left-over domains under a wildcard stay.
    method KeepMatched(left: Domains) returns (dropped: Domains)
      requires forall d | d in left :: d !in domains
      modifies `domains
      ensures forall d :: d in dropped <==> d in left && !Matched(wildcards, d)
      ensures forall d | d in dropped :: dropped[d] == left[d]
      ensures forall d :: d in domains <==> d in old(domains) || (d in left && Matched(wildcards, d))
      ensures forall d | d in domains :: domains[d] == if d in left then left[d] else old(domains)[d]
    {
      dropped := left;
      var todo := left.Keys;
      while todo != {}
        invariant todo <= left.Keys
        invariant forall d :: d in dropped <==> d in left && (d in todo || !Matched(wildcards, d))
        invariant forall d | d in dropped :: dropped[d] == left[d]
        invariant forall d :: d in domains <==> d in old(domains) || (d in left && d !in todo && Matched(wildcards, d))
        invariant forall d | d in domains :: domains[d] == if d in left then left[d] else old(domains)[d]
        decreases todo
      {
        var d :| d in todo;
        todo := todo - {d};
        var live := AnyMatches(wildcards, d);
        if live {
          domains := domains[d := left[d]];
          dropped := dropped - {d};
        }
      }
    }

    method UpdateDomains(ds: seq<string>)
      requires Valid()
      modifies this
      ensures Valid() && Updated(old(domains), ds, domains) && wildcards == Wildcards(ds)
      ensures old(unadvertised) <= unadvertised
      ensures !hasStoredRoutes ==> unadvertised == old(unadvertised)
      ensures hasStoredRoutes ==>
                forall a :: a in unadvertised[|old(unadvertised)|..] <==>
                  exists d :: DroppedDomain(old(domains), ds, d) && a in old(domains)[d]
    {
      var left := TakeListed(ds);
      TakeKeys(old(domains), Listed(ds));
      ghost var taken := domains;
      var dropped := KeepMatched(left);
      assert forall d :: d in dropped <==> DroppedDomain(old(domains), ds, d);
      if hasStoredRoutes {
        var toRemove := AddrsIn(dropped);
        unadvertised := unadvertised + toRemove;
      }
      forall d | d in domains
        ensures StrictlySorted(domains[d])
      {
        if d in Listed(ds) {
          TakeValue(old(domains), Listed(ds), d);
        }
      }
    }
  }

  // Every address of a table, domain by domain.
  method AddrsIn(m: Domains) returns (all: seq<Addr>)
    ensures forall a :: a in all <==> exists d :: d in m && a in m[d]
  {
    all := [];
    var todo := m.Keys;
    while todo != {}
      invariant todo <= m.Keys
      invariant forall a :: a in all <==> exists d :: d in m && d !in todo && a in m[d]
      decreases todo
    {
      var d :| d in todo;
      todo := todo - {d};
      all := all + m[d];
    }
  }
}
