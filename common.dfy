/** Small shared vocabulary for the three queue discs: an optional value
    (a null Ptr in the source) and the byte total of a FIFO of packet sizes. */
module Common {

  /** A value that may be absent; `None` stands for a null item pointer. */
  datatype Option<T> = None | Some(value: T)

  /** Total number of bytes held by a FIFO whose entries are packet sizes. */
  function Sum(s: seq<nat>): nat
  {
    if s == [] then 0 else s[0] + Sum(s[1..])
  }

  lemma {:induction false} SumAppend(s: seq<nat>, x: nat)
    ensures Sum(s + [x]) == Sum(s) + x
  {
    if s == [] {
      assert s + [x] == [x];
    } else {
      assert (s + [x])[1..] == s[1..] + [x];
      SumAppend(s[1..], x);
    }
  }

  /** The bytes of a prefix plus the bytes of the rest are the bytes of the whole. */
  lemma {:induction false} SumSplit(s: seq<nat>, k: nat)
    requires k <= |s|
    ensures Sum(s[..k]) + Sum(s[k..]) == Sum(s)
  {
    if k > 0 {
      assert s[..k][1..] == s[1..][..k - 1];
      assert s[k..] == s[1..][k - 1..];
      SumSplit(s[1..], k - 1);
    } else {
      assert s[..0] == [];
      assert s[0..] == s;
    }
  }

  /** Extending a prefix by one element adds that element's bytes. */
  lemma SumPrefixStep(s: seq<nat>, k: nat)
    requires k < |s|
    ensures Sum(s[..k + 1]) == Sum(s[..k]) + s[k]
  {
    assert s[..k + 1] == s[..k] + [s[k]];
    SumAppend(s[..k], s[k]);
  }
}
