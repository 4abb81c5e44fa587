// The reverse index that every tokenizer builds over its vocabulary.
module Vocab {
  import opened Bytes

  const BOS: u32 := 1
  const SPACE: byte := 0x20

  /** Reverse index: an entry's first position, as a 32-bit id. */
  function IndexFirst(vocab: seq<seq<byte>>): map<seq<byte>, u32> {
    if vocab == [] then map[]
    else
      var m := IndexFirst(vocab[..|vocab| - 1]);
      if vocab[|vocab| - 1] in m then m else m[vocab[|vocab| - 1] := Wrap32(|vocab| - 1)]
  }

  ghost predicate FirstIn(vocab: seq<seq<byte>>, m: map<seq<byte>, u32>) {
    && (forall i :: 0 <= i < |vocab| ==> vocab[i] in m)
    && (forall k <- m :: m[k] < |vocab| && vocab[m[k]] == k)
    && (forall i, k :: 0 <= i < |vocab| && k in m && vocab[i] == k ==> m[k] <= i)
  }

  /** Exactly the vocabulary is indexed, each entry by its first position, while ids fit 32 bits. */
  lemma {:induction false} IndexFirstIsFirst(vocab: seq<seq<byte>>)
    requires |vocab| <= U32
    ensures FirstIn(vocab, IndexFirst(vocab))
  {
    hide FirstIn;
    hide IndexFirst;
    if vocab == [] {
      FirstInEmpty();
    } else {
      var (front, k) := (vocab[..|vocab| - 1], vocab[|vocab| - 1]);
      IndexFirstIsFirst(front);
      FirstInStep(front, IndexFirst(front), k);
      IndexFirstSnoc(front, k);
      assert vocab == front + [k] && Wrap32(|front|) == |front|;
    }
  }

  lemma FirstInEmpty()
    ensures FirstIn([], IndexFirst([]))
  {
  }

  lemma FirstInStep(vocab: seq<seq<byte>>, m: map<seq<byte>, u32>, k: seq<byte>)
    requires FirstIn(vocab, m) && |vocab| < U32
    ensures FirstIn(vocab + [k], if k in m then m else m[k := |vocab|])
  {
    var (longer, m') := (vocab + [k], if k in m then m else m[k := |vocab|]);
    assert forall i :: 0 <= i < |vocab| ==> longer[i] == vocab[i];
    assert forall key <- m' :: m'[key] < |longer| && longer[m'[key]] == key;
  }

  /** `entry(token).or_insert(i)` */
  lemma IndexFirstSnoc(vocab: seq<seq<byte>>, k: seq<byte>)
    ensures IndexFirst(vocab + [k])
         == if k in IndexFirst(vocab) then IndexFirst(vocab) else IndexFirst(vocab)[k := Wrap32(|vocab|)]
  {
    assert (vocab + [k])[..|vocab|] == vocab;
  }
}
