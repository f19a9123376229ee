/** CAIP-10 account identifiers (`namespace:chainId:address`) and their unprefixed address. */
module Addresses {

  /**
   * `s.split(':').pop()`: the text after the last ':' of `s`, or the whole of `s`
   * when it holds no ':'. It is empty exactly when `s` is empty or ends with ':'.
   */
  function LastSegment(s: string): string
  {
    if s == [] || s[|s| - 1] == ':' then []
    else LastSegment(s[..|s| - 1]) + [s[|s| - 1]]
  }

  /** `r` is the last ':'-separated field of `s`: a ':'-free suffix preceded by ':' or by nothing. */
  ghost predicate IsLastField(s: string, r: string)
  {
    && |r| <= |s| && r == s[|s| - |r|..]
    && ':' !in r
    && (|r| < |s| ==> s[|s| - |r| - 1] == ':')
  }

  /** LastSegment computes the last field. */
  lemma {:induction false} LastSegmentIsLastField(s: string)
    ensures IsLastField(s, LastSegment(s))
  {
    if s != [] && s[|s| - 1] != ':' {
      var front := s[..|s| - 1];
      LastSegmentIsLastField(front);
      var t := LastSegment(front);
      assert LastSegment(s) == t + [s[|s| - 1]];
      assert s[|s| - |t| - 1..] == front[|front| - |t|..] + [s[|s| - 1]];
    }
  }

  /** A string has only one last field. */
  lemma LastFieldUnique(s: string, r1: string, r2: string)
    requires IsLastField(s, r1) && IsLastField(s, r2)
    ensures r1 == r2
  {
  }

  /** The unprefixed address of a CAIP-10 identifier is its address part. */
  lemma Caip10Address(namespace: string, chainId: string, address: string)
    requires ':' !in address
    ensures LastSegment(namespace + ":" + chainId + ":" + address) == address
  {
    var s := namespace + ":" + chainId + ":" + address;
    assert s[|s| - |address|..] == address;
    if |address| < |s| {
      assert s[|s| - |address| - 1] == ':';
    }
    LastSegmentIsLastField(s);
    LastFieldUnique(s, LastSegment(s), address);
  }
}
