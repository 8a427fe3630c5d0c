/**
 The Reverse option of pkg/clients/tlssecrets and pkg/clients/secretbundles: the leaf and the last
 CA certificate change places. tlssecret.go also holds a full in-place reversal.
 */
module Chains {

  datatype Certificate = Certificate(raw: string)

  function Swapped(chain: seq<Certificate>): (r: seq<Certificate>)
    requires chain != []
    ensures |r| == |chain|
  {
    chain[0 := chain[|chain| - 1]][|chain| - 1 := chain[0]]
  }

  function Reversed(s: seq<Certificate>): seq<Certificate> {
    if s == [] then [] else Reversed(s[1..]) + [s[0]]
  }

  lemma {:induction false} ReversedAt(s: seq<Certificate>)
    ensures |Reversed(s)| == |s|
    ensures forall i :: 0 <= i < |s| ==> Reversed(s)[i] == s[|s| - 1 - i]
  {
    if s == [] {
    } else {
      ReversedAt(s[1..]);
    }
  }

  /** Everything between the leaf and the last CA certificate. */
  function Interior(chain: seq<Certificate>): seq<Certificate>
    requires |chain| >= 2
  {
    chain[1..|chain| - 1]
  }

  /** Nothing is lost or duplicated. */
  lemma SwapPermutes(chain: seq<Certificate>)
    requires chain != []
    ensures multiset(Swapped(chain)) == multiset(chain)
  {
    if |chain| > 1 {
      var n := |chain|;
      var mid := Interior(chain);
      assert chain == [chain[0]] + mid + [chain[n - 1]];
      assert Swapped(chain) == [chain[n - 1]] + mid + [chain[0]];
    } else {
      assert Swapped(chain) == chain;
    }
  }

  /** The option on a leaf and its CA certificates, as the clients apply it. */
  method SwapEnds(leaf: Certificate, caCerts: array<Certificate>) returns (first: Certificate)
    requires caCerts.Length >= 1
    modifies caCerts
    ensures [first] + caCerts[..] == Swapped([leaf] + old(caCerts[..]))
    ensures multiset([first] + caCerts[..]) == multiset([leaf] + old(caCerts[..]))
    ensures first == old(caCerts[caCerts.Length - 1]) && caCerts[caCerts.Length - 1] == leaf
    ensures forall i :: 0 <= i < caCerts.Length - 1 ==> caCerts[i] == old(caCerts[i])
  {
    ghost var chain := [leaf] + caCerts[..];
    first := caCerts[caCerts.Length - 1];
    caCerts[caCerts.Length - 1] := leaf;
    assert [first] + caCerts[..] == Swapped(chain);
    SwapPermutes(chain);
  }

  /** The loop of `reverse`. */
  method ReverseInPlace(s: array<Certificate>)
    modifies s
    ensures s[..] == Reversed(old(s[..]))
    ensures forall i :: 0 <= i < s.Length ==> s[i] == old(s[s.Length - 1 - i])
  {
    var i, j := 0, s.Length - 1;
    while i < j
      invariant 0 <= i <= s.Length && j == s.Length - 1 - i && i <= j + 1
      invariant forall k :: 0 <= k < s.Length ==>
                  s[k] == if k < i || k > j then old(s[s.Length - 1 - k]) else old(s[k])
    {
      s[i], s[j] := s[j], s[i];
      i, j := i + 1, j - 1;
    }
    ReversedAt(old(s[..]));
  }

  /** Applying the option to its own output restores the chain. */
  lemma SwapIsInvolution(chain: seq<Certificate>)
    requires chain != []
    ensures Swapped(Swapped(chain)) == chain
  {
  }

  ghost predicate Palindrome(s: seq<Certificate>) {
    forall i, j :: 0 <= i < |s| && 0 <= j < |s| && i + j == |s| - 1 ==> s[i] == s[j]
  }

  lemma ReversedIsSelfIff(s: seq<Certificate>)
    ensures Reversed(s) == s <==> Palindrome(s)
  {
    ReversedAt(s);
    var r := Reversed(s);
    if r == s {
      forall i, j | 0 <= i < |s| && 0 <= j < |s| && i + j == |s| - 1
        ensures s[i] == s[j]
      {
        assert r[i] == s[j];
      }
    }
    if Palindrome(s) {
      forall i | 0 <= i < |s|
        ensures r[i] == s[i]
      {
        var j := |s| - 1 - i;
        assert s[i] == s[j];
      }
    }
  }

  /** The certificates between the ends mirror each other. */
  ghost predicate Mirrored(chain: seq<Certificate>) {
    forall i, j :: 0 < i < |chain| - 1 && 0 < j < |chain| - 1 && i + j == |chain| - 1 ==> chain[i] == chain[j]
  }

  /** `r` is the chain read backwards. */
  ghost predicate Backwards(r: seq<Certificate>, chain: seq<Certificate>) {
    |r| == |chain| && forall i, j :: 0 <= i < |r| && 0 <= j < |r| && i + j == |r| - 1 ==> r[i] == chain[j]
  }

  lemma SwappedIsBackwardsIff(chain: seq<Certificate>, r: seq<Certificate>)
    requires |chain| >= 2 && Backwards(r, chain)
    ensures Swapped(chain) == r <==> Mirrored(chain)
  {
    var n, s := |chain|, Swapped(chain);
    if s == r {
      forall i, j | 0 < i < n - 1 && 0 < j < n - 1 && i + j == n - 1
        ensures chain[i] == chain[j]
      {
        assert s[i] == chain[i] && r[i] == chain[j];
      }
    }
    if Mirrored(chain) {
      forall i | 0 <= i < n
        ensures s[i] == r[i]
      {
        var j := n - 1 - i;
        assert r[i] == chain[j];
        assert 0 < i < n - 1 ==> chain[i] == chain[j];
      }
    }
  }

  lemma ReversedIsBackwards(chain: seq<Certificate>)
    ensures Backwards(Reversed(chain), chain)
  {
    ReversedAt(chain);
  }

  lemma SwappedIsReversedIff(chain: seq<Certificate>)
    requires |chain| >= 2
    ensures Swapped(chain) == Reversed(chain) <==> Mirrored(chain)
  {
    ReversedIsBackwards(chain);
    SwappedIsBackwardsIff(chain, Reversed(chain));
  }

  lemma InteriorPalindromeIff(chain: seq<Certificate>)
    requires |chain| >= 2
    ensures Palindrome(Interior(chain)) <==> Mirrored(chain)
  {
    var n, mid := |chain|, Interior(chain);
    if Palindrome(mid) {
      forall i, j | 0 < i < n - 1 && 0 < j < n - 1 && i + j == n - 1
        ensures chain[i] == chain[j]
      {
        assert mid[i - 1] == mid[j - 1];
      }
    }
    if Mirrored(chain) {
      forall i, j | 0 <= i < |mid| && 0 <= j < |mid| && i + j == |mid| - 1
        ensures mid[i] == mid[j]
      {
        assert chain[i + 1] == chain[j + 1];
      }
    }
  }

  /** The option reverses the chain iff the interior reads the same both ways; always for up to two CA certificates. */
  lemma SwapReversesIff(chain: seq<Certificate>)
    requires |chain| >= 2
    ensures Swapped(chain) == Reversed(chain) <==> Interior(chain) == Reversed(Interior(chain))
    ensures |chain| <= 3 ==> Swapped(chain) == Reversed(chain)
  {
    SwappedIsReversedIff(chain);
    InteriorPalindromeIff(chain);
    ReversedIsSelfIff(Interior(chain));
  }
}
