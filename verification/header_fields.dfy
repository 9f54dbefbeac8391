/**
 * Header field lists as the HTTP/2 library hands them over (ordered name/value
 * pairs) and the Ruby hash `Hash[*pairs.flatten]` that the stream callbacks
 * build from them.
 */
module HeaderFields {
  import opened Wrappers

  /** An ordered list of (name, value) pairs; a Ruby hash literal keeps this order too. */
  type HeaderList = seq<(string, string)>

  function Names(h: HeaderList): (ns: seq<string>)
    ensures |ns| == |h|
    ensures forall i :: 0 <= i < |h| ==> ns[i] == h[i].0
  {
    seq(|h|, i requires 0 <= i < |h| => h[i].0)
  }

  /** No name occurs twice. */
  predicate Distinct(ns: seq<string>)
  {
    forall i, j :: 0 <= i < j < |ns| ==> ns[i] != ns[j]
  }

  /** `Hash[*pairs.flatten]`: pairs are stored left to right, so a later pair for a name replaces an earlier one. */
  function PairsToMap(pairs: HeaderList): (m: map<string, string>)
    ensures m.Keys == set i | 0 <= i < |pairs| :: pairs[i].0
  {
    if pairs == [] then map[]
    else
      var init := pairs[..|pairs| - 1];
      var m0 := PairsToMap(init);
      var m := m0[pairs[|pairs| - 1].0 := pairs[|pairs| - 1].1];
      assert m.Keys == m0.Keys + {pairs[|pairs| - 1].0};
      assert forall i :: 0 <= i < |init| ==> init[i] == pairs[i];
      m
  }

  /** The value stored for a name is the one of its last pair. */
  lemma {:induction false} LastPairWins(pairs: HeaderList, i: nat)
    requires i < |pairs|
    requires forall j :: i < j < |pairs| ==> pairs[j].0 != pairs[i].0
    ensures pairs[i].0 in PairsToMap(pairs)
    ensures PairsToMap(pairs)[pairs[i].0] == pairs[i].1
  {
    if i < |pairs| - 1 {
      var init := pairs[..|pairs| - 1];
      LastPairWins(init, i);
    }
  }

  /** With distinct names, every pair's value is the one stored for its name. */
  lemma {:induction false} DistinctPairsToMap(pairs: HeaderList)
    requires Distinct(Names(pairs))
    ensures forall i :: 0 <= i < |pairs| ==> PairsToMap(pairs)[pairs[i].0] == pairs[i].1
  {
    forall i | 0 <= i < |pairs|
      ensures PairsToMap(pairs)[pairs[i].0] == pairs[i].1
    {
      NoLaterDuplicate(pairs, i);
      LastPairWins(pairs, i);
    }
  }

  lemma {:induction false} NoLaterDuplicate(pairs: HeaderList, i: nat)
    requires Distinct(Names(pairs))
    requires i < |pairs|
    ensures forall j :: i < j < |pairs| ==> pairs[j].0 != pairs[i].0
  {
    var ns := Names(pairs);
    forall j | i < j < |pairs|
      ensures pairs[j].0 != pairs[i].0
    {
      assert ns[i] != ns[j];
    }
  }

  /** With distinct names, the hash has exactly one entry per pair. */
  lemma {:induction false} DistinctCard(pairs: HeaderList)
    requires Distinct(Names(pairs))
    ensures |PairsToMap(pairs).Keys| == |pairs|
  {
    if pairs != [] {
      var init := pairs[..|pairs| - 1];
      var last := pairs[|pairs| - 1].0;
      assert Names(init) == Names(pairs)[..|pairs| - 1];
      DistinctCard(init);
      forall i | 0 <= i < |init|
        ensures init[i].0 != last
      {
        assert Names(pairs)[i] != Names(pairs)[|pairs| - 1];
      }
      assert PairsToMap(pairs).Keys == PairsToMap(init).Keys + {last};
    }
  }
}
