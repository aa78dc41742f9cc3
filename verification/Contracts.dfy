/**
  Values the binary contracts share.
 */
module Contracts {
  import opened Options
  import opened Bytes
  import opened Records

  datatype Network = Signet | Mainnet

  function NetworkCode(n: Network): nat {
    if n.Signet? then 0x01 else 0x02
  }

  function NetworkOf(code: nat): Option<Network> {
    if code == 0x01 then Some(Signet) else if code == 0x02 then Some(Mainnet) else None
  }

  // Shapes of the contract primitives, all big-endian.
  const U8: Shape := Number(1, false)
  const WORD: Shape := Number(U32, false)
  const LONG: Shape := Number(U64, false)
  const DELIMITED: Shape := Text(U32, false)

  /** Texts read one by one as items of a list. */
  function TextItems(ts: seq<seq<byte>>): (xs: seq<seq<Value>>)
    ensures |xs| == |ts| && forall i :: 0 <= i < |ts| ==> xs[i] == [Octets(ts[i])]
  {
    if ts == [] then [] else [[Octets(ts[0])]] + TextItems(ts[1..])
  }

  /** Every item is one block or text. */
  predicate AreTexts(xs: seq<seq<Value>>) {
    forall i :: 0 <= i < |xs| ==> |xs[i]| == 1 && xs[i][0].Octets?
  }

  function TextsOf(xs: seq<seq<Value>>): (ts: seq<seq<byte>>)
    requires AreTexts(xs)
    ensures |ts| == |xs| && forall i :: 0 <= i < |xs| ==> ts[i] == xs[i][0].bytes
  {
    if xs == [] then [] else [xs[0][0].bytes] + TextsOf(xs[1..])
  }

  lemma {:induction false} TextItemsInverse(ts: seq<seq<byte>>)
    ensures AreTexts(TextItems(ts)) && TextsOf(TextItems(ts)) == ts
  {
  }

  lemma {:induction false} TextsOfInverse(xs: seq<seq<Value>>)
    requires AreTexts(xs)
    ensures TextItems(TextsOf(xs)) == xs
  {
    forall i | 0 <= i < |xs| ensures xs[i] == [Octets(xs[i][0].bytes)] {
    }
  }
}
