/**
 * The client address behind trusted proxies (internal/netutil/proxy.go). Addresses and prefixes are
 * abstract; `covers` says which addresses a prefix contains.
 */
module ClientAddress {
  import opened Wrappers

  predicate Trusted<A, P>(trusted: seq<P>, covers: (P, A) -> bool, a: A) {
    exists i :: 0 <= i < |trusted| && covers(trusted[i], a)
  }

  method Contains<A, P>(trusted: seq<P>, covers: (P, A) -> bool, a: A) returns (r: bool)
    ensures r <==> Trusted(trusted, covers, a)
  {
    for i := 0 to |trusted|
      invariant forall k :: 0 <= k < i ==> !covers(trusted[k], a)
    {
      if covers(trusted[i], a) {
        return true;
      }
    }
    return false;
  }

  /** The header entries that parse, in order. */
  function Parsed<A>(entries: seq<Option<A>>): seq<A> {
    if entries == [] then []
    else
      var last := entries[|entries| - 1];
      Parsed(entries[..|entries| - 1]) + if last.Some? then [last.value] else []
  }

  /** `i` is the rightmost untrusted element, or the leftmost element when all are trusted. */
  ghost predicate IsClient<A, P>(chain: seq<A>, trusted: seq<P>, covers: (P, A) -> bool, i: nat) {
    && i < |chain|
    && (forall j :: i < j < |chain| ==> Trusted(trusted, covers, chain[j]))
    && (Trusted(trusted, covers, chain[i]) ==> i == 0)
  }

  /**
   * `ClientIP`: `entries` are the parts of X-Forwarded-For, parsed and unmapped where they parse. The
   * result is the rightmost untrusted address of the parseable entries followed by the peer.
   */
  method ClientIP<A, P>(peer: A, entries: seq<Option<A>>, trusted: seq<P>, covers: (P, A) -> bool) returns (ip: A)
    ensures exists i: nat ::
              IsClient(Parsed(entries) + [peer], trusted, covers, i) && ip == (Parsed(entries) + [peer])[i]
  {
    ghost var all := Parsed(entries) + [peer];
    var direct := Contains(trusted, covers, peer);
    if !direct {
      assert IsClient(all, trusted, covers, |all| - 1);
      return peer;
    }
    var chain: seq<A> := [];
    for k := 0 to |entries|
      invariant chain == Parsed(entries[..k])
    {
      assert entries[..k + 1][..k] == entries[..k];
      if entries[k].Some? {
        chain := chain + [entries[k].value];
      }
    }
    assert entries[..|entries|] == entries;
    chain := chain + [peer];
    var i := |chain| - 1;
    while i >= 0
      invariant -1 <= i < |chain|
      invariant forall j :: i < j < |chain| ==> Trusted(trusted, covers, chain[j])
    {
      var t := Contains(trusted, covers, chain[i]);
      if !t {
        assert IsClient(all, trusted, covers, i);
        return chain[i];
      }
      i := i - 1;
    }
    assert IsClient(all, trusted, covers, 0);
    return chain[0];
  }

  /** The description fixes the result. */
  lemma ClientIsUnique<A, P>(chain: seq<A>, trusted: seq<P>, covers: (P, A) -> bool, i: nat, j: nat)
    requires IsClient(chain, trusted, covers, i) && IsClient(chain, trusted, covers, j)
    ensures i == j
  {
    var a, b := chain[i], chain[j];
    assert i < j ==> Trusted(trusted, covers, b);
    assert j < i ==> Trusted(trusted, covers, a);
  }

  lemma {:induction false} ParsedAppends<A>(a: seq<Option<A>>, b: seq<Option<A>>)
    ensures Parsed(a + b) == Parsed(a) + Parsed(b)
    decreases |b|
  {
    if b == [] {
      assert a + b == a;
    } else {
      ParsedAppends(a, b[..|b| - 1]);
      assert (a + b)[..|a + b| - 1] == a + b[..|b| - 1];
    }
  }

  lemma ClientAfterPrepending<A, P>(front: seq<A>, chain: seq<A>, trusted: seq<P>, covers: (P, A) -> bool, i: nat)
    requires IsClient(chain, trusted, covers, i) && !Trusted(trusted, covers, chain[i])
    ensures IsClient(front + chain, trusted, covers, |front| + i) && (front + chain)[|front| + i] == chain[i]
  {
    var longer := front + chain;
    forall j | |front| + i < j < |longer| ensures Trusted(trusted, covers, longer[j]) {
      assert longer[j] == chain[j - |front|];
    }
  }

  lemma FirstIsClient<A, P>(x: A, chain: seq<A>, trusted: seq<P>, covers: (P, A) -> bool)
    requires forall j :: 0 <= j < |chain| ==> Trusted(trusted, covers, chain[j])
    ensures IsClient([x] + chain, trusted, covers, 0)
  {
    forall j | 0 < j < |[x] + chain| ensures Trusted(trusted, covers, ([x] + chain)[j]) {
      assert ([x] + chain)[j] == chain[j - 1];
    }
  }

  /**
   * A client cannot choose its address: entries put in front of a header change nothing once the existing
   * chain holds an untrusted address.
   */
  lemma PrependingChangesNothing<A, P>(extra: seq<Option<A>>, entries: seq<Option<A>>, peer: A,
                                       trusted: seq<P>, covers: (P, A) -> bool, i: nat, j: nat)
    requires var chain := Parsed(entries) + [peer];
             IsClient(chain, trusted, covers, i) && !Trusted(trusted, covers, chain[i])
    requires IsClient(Parsed(extra + entries) + [peer], trusted, covers, j)
    ensures (Parsed(extra + entries) + [peer])[j] == (Parsed(entries) + [peer])[i]
  {
    var chain := Parsed(entries) + [peer];
    ParsedAppends(extra, entries);
    assert Parsed(extra + entries) + [peer] == Parsed(extra) + chain;
    ClientAfterPrepending(Parsed(extra), chain, trusted, covers, i);
    ClientIsUnique(Parsed(extra) + chain, trusted, covers, |Parsed(extra)| + i, j);
  }

  /** And only then: a different address put in front is ignored exactly when the chain holds an untrusted one. */
  lemma PrependedIsIgnoredIff<A, P>(x: A, chain: seq<A>, trusted: seq<P>, covers: (P, A) -> bool, i: nat, j: nat)
    requires IsClient(chain, trusted, covers, i) && IsClient([x] + chain, trusted, covers, j)
    requires x != chain[i]
    ensures ([x] + chain)[j] == chain[i] <==> exists k :: 0 <= k < |chain| && !Trusted(trusted, covers, chain[k])
  {
    if Trusted(trusted, covers, chain[i]) {
      FirstIsClient(x, chain, trusted, covers);
      ClientIsUnique([x] + chain, trusted, covers, 0, j);
    } else {
      ClientAfterPrepending([x], chain, trusted, covers, i);
      ClientIsUnique([x] + chain, trusted, covers, 1 + i, j);
    }
  }

  // ----- which entries count -----

  /** An entry that parses is kept in its place, one that does not is skipped. */
  lemma ParsedAt<A>(before: seq<Option<A>>, entry: Option<A>, after: seq<Option<A>>)
    ensures Parsed(before + [entry] + after)
         == Parsed(before) + (if entry.Some? then [entry.value] else []) + Parsed(after)
  {
    ParsedAppends(before + [entry], after);
    ParsedAppends(before, [entry]);
    assert [entry][..0] == [];
  }

  /** A header whose entries all parse is taken whole. */
  lemma {:induction false} ParsedWhole<A>(addresses: seq<A>)
    ensures Parsed(seq(|addresses|, i requires 0 <= i < |addresses| => Some(addresses[i]))) == addresses
  {
    if addresses != [] {
      var front := addresses[..|addresses| - 1];
      ParsedWhole(front);
      var entries := seq(|addresses|, i requires 0 <= i < |addresses| => Some(addresses[i]));
      assert entries[..|entries| - 1] == seq(|front|, i requires 0 <= i < |front| => Some(front[i]));
    }
  }
}
