/**
 * Cross-referencing the space's subscribers from the database (bare addresses) with
 * the WalletConnect Notify directory (CAIP-10 identifiers), as `crossReferenceSubscribers`
 * and `getSubscribersFromWalletConnect` do.
 */
module CrossReference {
  import opened Wrappers
  import opened Addresses

  /**
   * The directory `getSubscribersFromWalletConnect` yields for a fetch outcome:
   * `None` stands for a failed request or an unparsable body, which becomes the empty list.
   */
  function SubscribersFromWalletConnect(fetched: Option<seq<string>>): seq<string>
  {
    match fetched
    case None => []
    case Some(entries) => entries
  }

  /**
   * The lookup `addressPrefixMap` built by the first loop of `crossReferenceSubscribers`
   * over `directory`: an entry whose unprefixed address is empty is skipped, and a later
   * entry with the same unprefixed address overwrites an earlier one.
   */
  function AddressPrefixMap(directory: seq<string>): (m: map<string, string>)
    ensures forall k :: k in m ==> k != "" && m[k] != "" && m[k] in directory && LastSegment(m[k]) == k
  {
    if directory == [] then map[]
    else
      var m := AddressPrefixMap(directory[..|directory| - 1]);
      var entry := directory[|directory| - 1];
      var unprefixed := LastSegment(entry);
      if unprefixed != "" then m[unprefixed := entry] else m
  }

  /**
   * What the second loop of `crossReferenceSubscribers` pushes, in database order: for each
   * database subscriber that is a key of `lookup` with a non-empty (truthy) value, that value.
   */
  function CrossReferenced(lookup: map<string, string>, subscribers: seq<string>): (r: seq<string>)
    ensures |r| <= |subscribers|
    ensures forall i :: 0 <= i < |r| ==> r[i] != ""
  {
    if subscribers == [] then []
    else
      var previous := CrossReferenced(lookup, subscribers[..|subscribers| - 1]);
      var subscriber := subscribers[|subscribers| - 1];
      if subscriber in lookup && lookup[subscriber] != "" then previous + [lookup[subscriber]]
      else previous
  }

  /**
   * `crossReferenceSubscribers(space, subscribersFromDb)`, given the outcome of the directory
   * fetch it makes. `captured` says whether the fetch error was reported.
   */
  method CrossReferenceSubscribers(fetched: Option<seq<string>>, subscribersFromDb: seq<string>)
    returns (crossReferenced: seq<string>, captured: bool)
    ensures captured <==> fetched.None?
    ensures crossReferenced ==
      CrossReferenced(AddressPrefixMap(SubscribersFromWalletConnect(fetched)), subscribersFromDb)
  {
    captured := fetched.None?;
    var subscribersFromWalletConnect := SubscribersFromWalletConnect(fetched);

    var addressPrefixMap: map<string, string> := map[];
    var i := 0;
    while i < |subscribersFromWalletConnect|
      invariant 0 <= i <= |subscribersFromWalletConnect|
      invariant addressPrefixMap == AddressPrefixMap(subscribersFromWalletConnect[..i])
    {
      var subscriber := subscribersFromWalletConnect[i];
      var unprefixedAddress := LastSegment(subscriber);
      if unprefixedAddress != "" {
        addressPrefixMap := addressPrefixMap[unprefixedAddress := subscriber];
      }
      assert subscribersFromWalletConnect[..i + 1][..i] == subscribersFromWalletConnect[..i];
      i := i + 1;
    }
    assert subscribersFromWalletConnect[..i] == subscribersFromWalletConnect;

    crossReferenced := [];
    var j := 0;
    while j < |subscribersFromDb|
      invariant 0 <= j <= |subscribersFromDb|
      invariant crossReferenced == CrossReferenced(addressPrefixMap, subscribersFromDb[..j])
    {
      var subscriber := subscribersFromDb[j];
      if subscriber in addressPrefixMap && addressPrefixMap[subscriber] != "" {
        crossReferenced := crossReferenced + [addressPrefixMap[subscriber]];
      }
      assert subscribersFromDb[..j + 1][..j] == subscribersFromDb[..j];
      j := j + 1;
    }
    assert subscribersFromDb[..j] == subscribersFromDb;
  }

  /** The lookup's keys are exactly the non-empty unprefixed addresses of the directory. */
  lemma {:induction false} AddressPrefixMapKeys(directory: seq<string>, k: string)
    ensures k in AddressPrefixMap(directory) <==>
      k != "" && exists i :: 0 <= i < |directory| && LastSegment(directory[i]) == k
  {
    if directory != [] {
      var front := directory[..|directory| - 1];
      AddressPrefixMapKeys(front, k);
      if k != "" && k !in AddressPrefixMap(front) && LastSegment(directory[|directory| - 1]) != k {
        forall i | 0 <= i < |directory| ensures LastSegment(directory[i]) != k {
          if i < |directory| - 1 {
            assert directory[i] == front[i];
          }
        }
      }
      if k in AddressPrefixMap(front) {
        var i :| 0 <= i < |front| && LastSegment(front[i]) == k;
        assert directory[i] == front[i];
      }
    }
  }

  /** Entry `i` has unprefixed address `k`, and no later entry has. */
  ghost predicate IsLatestWithAddress(directory: seq<string>, k: string, i: int)
  {
    && 0 <= i < |directory|
    && LastSegment(directory[i]) == k
    && forall j :: i < j < |directory| ==> LastSegment(directory[j]) != k
  }

  /** A key maps to the LAST directory entry with that unprefixed address. */
  lemma {:induction false} AddressPrefixMapLatest(directory: seq<string>, k: string)
    requires k in AddressPrefixMap(directory)
    ensures exists i :: IsLatestWithAddress(directory, k, i) && AddressPrefixMap(directory)[k] == directory[i]
  {
    var last := |directory| - 1;
    var front := directory[..last];
    var unprefixed := LastSegment(directory[last]);
    if unprefixed == k {
      assert AddressPrefixMap(directory)[k] == directory[last];
      assert IsLatestWithAddress(directory, k, last);
    } else {
      assert k in AddressPrefixMap(front) && AddressPrefixMap(directory)[k] == AddressPrefixMap(front)[k];
      AddressPrefixMapLatest(front, k);
      var i :| IsLatestWithAddress(front, k, i) && AddressPrefixMap(front)[k] == front[i];
      assert directory[i] == front[i];
      forall j | i < j < |directory| ensures LastSegment(directory[j]) != k {
        if j < last {
          assert directory[j] == front[j];
        }
      }
      assert IsLatestWithAddress(directory, k, i);
    }
  }

  /** Cross-referencing works subscriber by subscriber: the order is kept and repeats are not removed. */
  lemma {:induction false} CrossReferencedAppend(lookup: map<string, string>, a: seq<string>, b: seq<string>)
    ensures CrossReferenced(lookup, a + b) == CrossReferenced(lookup, a) + CrossReferenced(lookup, b)
  {
    if b == [] {
      assert a + b == a;
    } else {
      var b' := b[..|b| - 1];
      CrossReferencedAppend(lookup, a, b');
      assert (a + b)[..|a + b| - 1] == a + b';
    }
  }

  /**
   * Every cross-referenced identifier is a directory entry whose unprefixed address is,
   * exactly, some database subscriber.
   */
  lemma {:induction false} CrossReferencedSound(directory: seq<string>, subscribers: seq<string>)
    ensures forall x :: x in CrossReferenced(AddressPrefixMap(directory), subscribers) ==>
      x in directory && LastSegment(x) != "" && LastSegment(x) in subscribers
  {
    if subscribers != [] {
      var front := subscribers[..|subscribers| - 1];
      CrossReferencedSound(directory, front);
      forall x | x in CrossReferenced(AddressPrefixMap(directory), front) ensures LastSegment(x) in subscribers {
        var j :| 0 <= j < |front| && front[j] == LastSegment(x);
        assert subscribers[j] == front[j];
      }
    }
  }

  /**
   * A database subscriber that is the unprefixed address of some directory entry is not
   * dropped: its lookup value is in the result.
   */
  lemma {:induction false} CrossReferencedComplete(directory: seq<string>, subscribers: seq<string>, j: nat)
    requires j < |subscribers|
    requires exists i :: 0 <= i < |directory| && LastSegment(directory[i]) == subscribers[j] != ""
    ensures subscribers[j] in AddressPrefixMap(directory)
    ensures AddressPrefixMap(directory)[subscribers[j]] in CrossReferenced(AddressPrefixMap(directory), subscribers)
  {
    var lookup := AddressPrefixMap(directory);
    var s := subscribers[j];
    AddressPrefixMapKeys(directory, s);
    assert LastSegment(lookup[s]) == s != "";
    assert subscribers == subscribers[..j] + [s] + subscribers[j + 1..];
    CrossReferencedAppend(lookup, subscribers[..j] + [s], subscribers[j + 1..]);
    CrossReferencedAppend(lookup, subscribers[..j], [s]);
    assert [s][..0] == [];
    assert CrossReferenced(lookup, [s]) == [lookup[s]];
  }

  /** Nothing is dropped exactly when every database subscriber is a key of the lookup. */
  lemma {:induction false} CrossReferencedKeepsAll(directory: seq<string>, subscribers: seq<string>)
    ensures |CrossReferenced(AddressPrefixMap(directory), subscribers)| == |subscribers| <==>
      forall j :: 0 <= j < |subscribers| ==> subscribers[j] in AddressPrefixMap(directory)
  {
    var lookup := AddressPrefixMap(directory);
    if subscribers != [] {
      var n := |subscribers| - 1;
      var front := subscribers[..n];
      var s := subscribers[n];
      CrossReferencedKeepsAll(directory, front);
      var frontFound := forall j :: 0 <= j < |front| ==> front[j] in lookup;
      var allFound := forall j :: 0 <= j < |subscribers| ==> subscribers[j] in lookup;
      if s in lookup {
        assert lookup[s] != "";
        assert |CrossReferenced(lookup, subscribers)| == |CrossReferenced(lookup, front)| + 1;
        assert allFound == frontFound by {
          forall j | 0 <= j < |front| ensures front[j] == subscribers[j] { }
        }
      } else {
        assert |CrossReferenced(lookup, subscribers)| == |CrossReferenced(lookup, front)|;
        assert !allFound;
      }
    }
  }

  /** An empty directory resolves nobody. */
  lemma {:induction false} CrossReferencedEmptyLookup(subscribers: seq<string>)
    ensures CrossReferenced(map[], subscribers) == []
  {
    if subscribers != [] {
      CrossReferencedEmptyLookup(subscribers[..|subscribers| - 1]);
    }
  }

  /** A failed directory fetch gives an empty result (and no error escapes). */
  lemma {:induction false} FailedFetchResolvesNobody(subscribers: seq<string>)
    ensures CrossReferenced(AddressPrefixMap(SubscribersFromWalletConnect(None)), subscribers) == []
  {
    CrossReferencedEmptyLookup(subscribers);
  }

  /** The worked example: only the address present in both lists is kept, in its CAIP-10 form. */
  lemma CrossReferenceExample()
    ensures CrossReferenced(AddressPrefixMap(["eip155:1:0xABC", "eip155:1:0xDEF"]), ["0xABC", "0xZZZ"])
      == ["eip155:1:0xABC"]
  {
    Caip10Address("eip155", "1", "0xABC");
    assert "eip155" + ":" + "1" + ":" + "0xABC" == "eip155:1:0xABC";
    Caip10Address("eip155", "1", "0xDEF");
    assert "eip155" + ":" + "1" + ":" + "0xDEF" == "eip155:1:0xDEF";
    var directory := ["eip155:1:0xABC", "eip155:1:0xDEF"];
    assert directory[..1] == ["eip155:1:0xABC"];
    assert directory[..1][..0] == [];
    assert AddressPrefixMap(directory[..1]) == map["0xABC" := "eip155:1:0xABC"];
    var lookup := AddressPrefixMap(directory);
    assert lookup == map["0xABC" := "eip155:1:0xABC", "0xDEF" := "eip155:1:0xDEF"];
    var subscribers := ["0xABC", "0xZZZ"];
    assert subscribers[..1] == ["0xABC"];
    assert subscribers[..1][..0] == [];
  }
}
