/** The LLQ flow scheduler: flows hashed (optionally set-associatively) into buckets,
    each bucket served by its own child queue disc, the new-flows / old-flows deficit
    round robin of section 4.2 of RFC 8290 on dequeue, and the fat-flow drop of section
    4.1 of RFC 8290 on overload.  Each child disc is a FIFO of packet sizes whose enqueue
    may refuse.  A flow is identified by its class index: the source's deques hold
    pointers to flow objects that are never destroyed, so a pointer and the index of the
    class it was added as name the same flow. */
module Llq {
  import opened Common

  datatype FlowStatus = Inactive | NewFlow | OldFlow

  /** An LLQFlow: its deficit (int32), status, bucket index and its child's FIFO. */
  datatype LlqFlow = LlqFlow(deficit: int, status: FlowStatus, index: nat, backlog: seq<nat>)

  /** What the statistics collaborator is told: a drop before enqueue for want of a
      filter match, or a drop after dequeue by the fat-flow rule. */
  datatype DropEvent = UnclassifiedDrop(size: nat) | OverlimitDrop(size: nat)

  /** The outcome of CheckConfig: accepted, refused (false), or the simulation aborted. */
  datatype ConfigVerdict = Accepted | Refused | Aborted

  /** One arrival: the packet's hash under the perturbation, the verdict of the packet
      filters (None for PF_NO_MATCH), its size and whether the child disc accepts it. */
  datatype LlqArrival = LlqArrival(hash: nat, filterResult: Option<nat>, size: nat, childAccepts: bool)

  /** The packets queued over all flows. */
  function TotalPackets(cs: seq<LlqFlow>): nat
  {
    if cs == [] then 0 else |cs[0].backlog| + TotalPackets(cs[1..])
  }

  /** The bytes queued over all flows. */
  function TotalBytes(cs: seq<LlqFlow>): nat
  {
    if cs == [] then 0 else Sum(cs[0].backlog) + TotalBytes(cs[1..])
  }

  predicate Distinct(s: seq<nat>)
  {
    forall a, b :: 0 <= a < b < |s| ==> s[a] != s[b]
  }

  /** The deques name existing flows, each at most once; a flow is in the new-flows deque
      exactly when its status is NEW_FLOW and in the old-flows deque exactly when it is
      OLD_FLOW; an INACTIVE flow holds no packet. */
  predicate ListsMatch(cs: seq<LlqFlow>, nf: seq<nat>, of: seq<nat>)
  {
    && (forall k :: 0 <= k < |nf| ==> nf[k] < |cs| && cs[nf[k]].status == NewFlow)
    && (forall k :: 0 <= k < |of| ==> of[k] < |cs| && cs[of[k]].status == OldFlow)
    && (forall i :: 0 <= i < |cs| && cs[i].status == NewFlow ==> i in nf)
    && (forall i :: 0 <= i < |cs| && cs[i].status == OldFlow ==> i in of)
    && Distinct(nf) && Distinct(of)
    && (forall i :: 0 <= i < |cs| && cs[i].status == Inactive ==> cs[i].backlog == [])
  }

  /** m_flowsIndices maps each bucket that has a flow to that flow's class index, and the
      flow records the bucket: a bijection between the map's keys and the classes. */
  predicate IndexMatch(fi: map<nat, nat>, cs: seq<LlqFlow>)
  {
    && (forall h :: h in fi ==> fi[h] < |cs| && cs[fi[h]].index == h)
    && (forall i :: 0 <= i < |cs| ==> cs[i].index in fi && fi[cs[i].index] == i)
  }

  /** Every queued packet has a positive size. */
  predicate PositiveSizes(cs: seq<LlqFlow>)
  {
    forall i, k :: 0 <= i < |cs| && 0 <= k < |cs[i].backlog| ==> cs[i].backlog[k] > 0
  }

  // ---------------------------------------------------------------- list invariant

  /** Status decides list membership, so no flow is in both deques. */
  lemma {:induction false} ListsExclusive(cs: seq<LlqFlow>, nf: seq<nat>, of: seq<nat>, i: nat)
    requires ListsMatch(cs, nf, of) && i < |cs|
    ensures i in nf <==> cs[i].status == NewFlow
    ensures i in of <==> cs[i].status == OldFlow
    ensures !(i in nf && i in of)
  {
    if i in nf {
      var k :| 0 <= k < |nf| && nf[k] == i;
    }
    if i in of {
      var k :| 0 <= k < |of| && of[k] == i;
    }
  }

  /** With both deques empty every flow is inactive and so holds no packet. */
  lemma {:induction false} EmptyListsNoPackets(cs: seq<LlqFlow>)
    requires ListsMatch(cs, [], [])
    ensures TotalPackets(cs) == 0
  {
    if cs != [] {
      assert cs[0].status == Inactive;
      assert ListsMatch(cs[1..], [], []) by {
        forall i | 0 <= i < |cs[1..]|
          ensures cs[1..][i].status == Inactive && cs[1..][i].backlog == []
        {
          assert cs[1..][i] == cs[i + 1];
        }
      }
      EmptyListsNoPackets(cs[1..]);
    }
  }

  /** A flow with a packet makes the total positive. */
  lemma {:induction false} PacketsPositive(cs: seq<LlqFlow>, i: nat)
    requires i < |cs| && cs[i].backlog != []
    ensures TotalPackets(cs) > 0
  {
    if i > 0 {
      assert cs[1..][i - 1] == cs[i];
      PacketsPositive(cs[1..], i - 1);
    }
  }

  /** A flow with bytes makes the byte total positive, and a zero total means no flow has bytes. */
  lemma {:induction false} BytesBound(cs: seq<LlqFlow>, i: nat)
    requires i < |cs|
    ensures Sum(cs[i].backlog) <= TotalBytes(cs)
  {
    if i > 0 {
      assert cs[1..][i - 1] == cs[i];
      BytesBound(cs[1..], i - 1);
    }
  }

  /** Changing one flow's FIFO changes the totals by the difference at that flow. */
  lemma {:induction false} TotalsUpdate(cs: seq<LlqFlow>, i: nat, f: LlqFlow)
    requires i < |cs|
    ensures TotalPackets(cs[i := f]) + |cs[i].backlog| == TotalPackets(cs) + |f.backlog|
    ensures TotalBytes(cs[i := f]) + Sum(cs[i].backlog) == TotalBytes(cs) + Sum(f.backlog)
  {
    if i > 0 {
      assert cs[i := f][1..] == cs[1..][i - 1 := f];
      TotalsUpdate(cs[1..], i - 1, f);
    } else {
      assert cs[i := f][1..] == cs[1..];
    }
  }

  /** Adding a flow with an empty FIFO changes neither total. */
  lemma {:induction false} TotalsAppendEmpty(cs: seq<LlqFlow>, f: LlqFlow)
    requires f.backlog == []
    ensures TotalPackets(cs + [f]) == TotalPackets(cs) && TotalBytes(cs + [f]) == TotalBytes(cs)
  {
    if cs == [] {
      assert [f][1..] == [];
    } else {
      assert (cs + [f])[1..] == cs[1..] + [f];
      TotalsAppendEmpty(cs[1..], f);
    }
  }

  /** A new flow is created INACTIVE with no packet: the invariants still hold. */
  lemma ListsMatchCreate(cs: seq<LlqFlow>, nf: seq<nat>, of: seq<nat>, h: nat)
    requires ListsMatch(cs, nf, of)
    ensures ListsMatch(cs + [LlqFlow(0, Inactive, h, [])], nf, of)
  {
    var cs' := cs + [LlqFlow(0, Inactive, h, [])];
    forall k | 0 <= k < |nf| ensures cs'[nf[k]] == cs[nf[k]] { }
    forall k | 0 <= k < |of| ensures cs'[of[k]] == cs[of[k]] { }
  }

  /** An INACTIVE flow receiving a packet becomes NEW_FLOW at the tail of the new-flows deque. */
  lemma ListsMatchActivate(cs: seq<LlqFlow>, nf: seq<nat>, of: seq<nat>, i: nat, d: int)
    requires ListsMatch(cs, nf, of) && i < |cs| && cs[i].status == Inactive
    ensures ListsMatch(cs[i := cs[i].(status := NewFlow, deficit := d)], nf + [i], of)
  {
    ListsExclusive(cs, nf, of, i);
    var cs' := cs[i := cs[i].(status := NewFlow, deficit := d)];
    var nf' := nf + [i];
    forall k | 0 <= k < |nf'| ensures nf'[k] < |cs'| && cs'[nf'[k]].status == NewFlow {
      if k < |nf| { assert nf'[k] == nf[k]; }
    }
    forall j | 0 <= j < |cs'| && cs'[j].status == NewFlow ensures j in nf' {
      if j != i { assert j in nf; }
      else { assert nf'[|nf|] == i; }
    }
    forall k | 0 <= k < |of| ensures of[k] != i {
    }
  }

  /** An active flow's FIFO changing (or an inactive one's staying empty) keeps the invariants. */
  lemma ListsMatchBacklog(cs: seq<LlqFlow>, nf: seq<nat>, of: seq<nat>, i: nat, nb: seq<nat>)
    requires ListsMatch(cs, nf, of) && i < |cs| && (cs[i].status != Inactive || nb == [])
    ensures ListsMatch(cs[i := cs[i].(backlog := nb)], nf, of)
  {
  }

  /** A flow keeping its status (and, if INACTIVE, its empty FIFO) keeps the invariants. */
  lemma ListsMatchSameStatus(cs: seq<LlqFlow>, nf: seq<nat>, of: seq<nat>, i: nat, g: LlqFlow)
    requires ListsMatch(cs, nf, of) && i < |cs| && g.status == cs[i].status && (g.status != Inactive || g.backlog == [])
    ensures ListsMatch(cs[i := g], nf, of)
  {
  }

  /** An arrival at class i (activation, then the child's verdict) keeps the bucket/class
      bijection, the deque invariant and the positive packet sizes. */
  lemma JoinKeeps(fi: map<nat, nat>, cs: seq<LlqFlow>, nf: seq<nat>, of: seq<nat>,
                  i: nat, quantum: nat, size: nat, accepts: bool)
    requires IndexMatch(fi, cs) && ListsMatch(cs, nf, of) && PositiveSizes(cs) && i < |cs| && size > 0
    ensures var f := Joined(cs[i], quantum, size, accepts);
            var nf' := nf + (if cs[i].status == Inactive then [i] else []);
            && IndexMatch(fi, cs[i := f]) && ListsMatch(cs[i := f], nf', of) && PositiveSizes(cs[i := f])
  {
    var f := Joined(cs[i], quantum, size, accepts);
    var g := if cs[i].status == Inactive then cs[i].(status := NewFlow, deficit := quantum) else cs[i];
    var nf' := nf + (if cs[i].status == Inactive then [i] else []);
    if cs[i].status == Inactive {
      ListsMatchActivate(cs, nf, of, i, quantum);
    } else {
      assert nf' == nf;
    }
    ListsMatchBacklog(cs[i := g], nf', of, i, f.backlog);
    assert cs[i := g][i := g.(backlog := f.backlog)] == cs[i := f];
    IndexMatchUpdate(fi, cs, i, f);
    PositiveSizesUpdate(cs, i, f);
  }

  /** An arrival at class i moves the totals by the packet the child takes, if any. */
  lemma JoinTotals(cs: seq<LlqFlow>, i: nat, quantum: nat, size: nat, accepts: bool)
    requires i < |cs|
    ensures var f := Joined(cs[i], quantum, size, accepts);
            && TotalPackets(cs[i := f]) == TotalPackets(cs) + (if accepts then 1 else 0)
            && TotalBytes(cs[i := f]) == TotalBytes(cs) + (if accepts then size else 0)
  {
    var f := Joined(cs[i], quantum, size, accepts);
    TotalsUpdate(cs, i, f);
    SumAppend(cs[i].backlog, size);
  }

  /** The front of the new-flows deque becoming OLD_FLOW at the tail of the old-flows deque. */
  lemma ListsMatchNewToOld(cs: seq<LlqFlow>, nf: seq<nat>, of: seq<nat>, d: int)
    requires ListsMatch(cs, nf, of) && nf != []
    ensures nf[0] < |cs|
    ensures ListsMatch(cs[nf[0] := cs[nf[0]].(status := OldFlow, deficit := d)], nf[1..], of + [nf[0]])
  {
    var i := nf[0];
    var cs' := cs[i := cs[i].(status := OldFlow, deficit := d)];
    var nf', of' := nf[1..], of + [i];
    ListsExclusive(cs, nf, of, i);
    forall k | 0 <= k < |nf'| ensures nf'[k] < |cs'| && cs'[nf'[k]].status == NewFlow {
      assert nf'[k] == nf[k + 1] && nf[k + 1] != nf[0];
    }
    forall k | 0 <= k < |of'| ensures of'[k] < |cs'| && cs'[of'[k]].status == OldFlow {
      if k < |of| { assert of'[k] == of[k]; }
    }
    forall j | 0 <= j < |cs'| && cs'[j].status == NewFlow ensures j in nf' {
      assert j in nf;
      var k :| 0 <= k < |nf| && nf[k] == j;
      assert k != 0;
      assert nf'[k - 1] == j;
    }
    forall j | 0 <= j < |cs'| && cs'[j].status == OldFlow ensures j in of' {
      if j != i { assert j in of; }
      else { assert of'[|of|] == i; }
    }
    assert Distinct(nf') by {
      forall a, b | 0 <= a < b < |nf'| ensures nf'[a] != nf'[b] {
        assert nf'[a] == nf[a + 1] && nf'[b] == nf[b + 1];
      }
    }
  }

  /** The front of the old-flows deque moving to its tail with a new deficit. */
  lemma ListsMatchRotate(cs: seq<LlqFlow>, nf: seq<nat>, of: seq<nat>, d: int)
    requires ListsMatch(cs, nf, of) && of != []
    ensures of[0] < |cs|
    ensures ListsMatch(cs[of[0] := cs[of[0]].(deficit := d)], nf, of[1..] + [of[0]])
  {
    var i := of[0];
    var cs' := cs[i := cs[i].(deficit := d)];
    var of' := of[1..] + [i];
    forall k | 0 <= k < |of'| ensures of'[k] < |cs'| && cs'[of'[k]].status == OldFlow {
      if k < |of| - 1 { assert of'[k] == of[k + 1]; }
    }
    forall j | 0 <= j < |cs'| && cs'[j].status == OldFlow ensures j in of' {
      assert j in of;
      var k :| 0 <= k < |of| && of[k] == j;
      if k == 0 { assert of'[|of| - 1] == j; } else { assert of'[k - 1] == j; }
    }
    forall j | 0 <= j < |cs'| && cs'[j].status == NewFlow ensures j in nf {
      assert cs[j].status == NewFlow;
    }
    assert Distinct(of') by {
      forall a, b | 0 <= a < b < |of'| ensures of'[a] != of'[b] {
        if b < |of| - 1 {
          assert of'[a] == of[a + 1] && of'[b] == of[b + 1];
        } else {
          assert of'[a] == of[a + 1] && of'[b] == of[0];
        }
      }
    }
  }

  /** The front of the old-flows deque, found empty, becoming INACTIVE and leaving it. */
  lemma ListsMatchRetire(cs: seq<LlqFlow>, nf: seq<nat>, of: seq<nat>)
    requires ListsMatch(cs, nf, of) && of != [] && of[0] < |cs| && cs[of[0]].backlog == []
    ensures ListsMatch(cs[of[0] := cs[of[0]].(status := Inactive)], nf, of[1..])
  {
    var i := of[0];
    var cs' := cs[i := cs[i].(status := Inactive)];
    var of' := of[1..];
    ListsExclusive(cs, nf, of, i);
    forall k | 0 <= k < |of'| ensures of'[k] < |cs'| && cs'[of'[k]].status == OldFlow {
      assert of'[k] == of[k + 1] && of[k + 1] != of[0];
    }
    forall j | 0 <= j < |cs'| && cs'[j].status == OldFlow ensures j in of' {
      assert j in of;
      var k :| 0 <= k < |of| && of[k] == j;
      assert k != 0;
      assert of'[k - 1] == j;
    }
    forall k | 0 <= k < |nf| ensures nf[k] != i {
    }
    assert Distinct(of') by {
      forall a, b | 0 <= a < b < |of'| ensures of'[a] != of'[b] {
        assert of'[a] == of[a + 1] && of'[b] == of[b + 1];
      }
    }
  }

  // ---------------------------------------------------------------- index invariant

  /** Creating the flow of a bucket that had none keeps the bucket/class bijection. */
  lemma IndexMatchCreate(fi: map<nat, nat>, cs: seq<LlqFlow>, h: nat)
    requires IndexMatch(fi, cs) && h !in fi
    ensures IndexMatch(fi[h := |cs|], cs + [LlqFlow(0, Inactive, h, [])])
  {
    var cs' := cs + [LlqFlow(0, Inactive, h, [])];
    var fi' := fi[h := |cs|];
    forall i | 0 <= i < |cs'| ensures cs'[i].index in fi' && fi'[cs'[i].index] == i {
      if i < |cs| {
        assert cs'[i] == cs[i];
        assert cs[i].index != h;
      }
    }
  }

  /** Only packets, statuses and deficits change after creation: the bijection holds. */
  lemma IndexMatchUpdate(fi: map<nat, nat>, cs: seq<LlqFlow>, i: nat, f: LlqFlow)
    requires IndexMatch(fi, cs) && i < |cs| && f.index == cs[i].index
    ensures IndexMatch(fi, cs[i := f])
  {
  }

  // ---------------------------------------------------------------- termination of the scan

  /** How far the OLD_FLOW flows are from a positive deficit, summed: each old-flows rotation
      of a flow with deficit <= 0 adds a positive quantum and so lowers it. */
  function Need(cs: seq<LlqFlow>): nat
  {
    if cs == [] then 0
    else (if cs[0].status == OldFlow && cs[0].deficit <= 0 then 1 - cs[0].deficit else 0) + Need(cs[1..])
  }

  lemma {:induction false} NeedDecreases(cs: seq<LlqFlow>, i: nat, q: nat)
    requires i < |cs| && cs[i].status == OldFlow && cs[i].deficit <= 0 && q > 0
    ensures Need(cs[i := cs[i].(deficit := cs[i].deficit + q)]) < Need(cs)
  {
    var cs' := cs[i := cs[i].(deficit := cs[i].deficit + q)];
    if i > 0 {
      assert cs'[1..] == cs[1..][i - 1 := cs[i].(deficit := cs[i].deficit + q)];
      assert cs[1..][i - 1] == cs[i];
      NeedDecreases(cs[1..], i - 1, q);
    } else {
      assert cs'[1..] == cs[1..];
    }
  }

  /** Equal FIFOs give equal totals. */
  lemma {:induction false} TotalsSameBacklogs(cs: seq<LlqFlow>, ds: seq<LlqFlow>)
    requires |cs| == |ds| && forall j :: 0 <= j < |cs| ==> cs[j].backlog == ds[j].backlog
    ensures TotalPackets(cs) == TotalPackets(ds) && TotalBytes(cs) == TotalBytes(ds)
  {
    if cs != [] {
      assert forall j :: 0 <= j < |cs[1..]| ==> cs[1..][j].backlog == cs[j + 1].backlog;
      assert forall j :: 0 <= j < |ds[1..]| ==> ds[1..][j].backlog == ds[j + 1].backlog;
      TotalsSameBacklogs(cs[1..], ds[1..]);
    }
  }

  // ---------------------------------------------------------------- set-associative hashing

  /** A bucket of the set may take the flow: no flow there yet, tagged with this hash, or its
      flow INACTIVE. */
  predicate Usable(fi: map<nat, nat>, tags: map<nat, nat>, cs: seq<LlqFlow>, j: nat, flowHash: nat)
  {
    || j !in fi
    || (j in tags && tags[j] == flowHash)
    || (fi[j] < |cs| && cs[fi[j]].status == Inactive)
  }

  /** Bucket r is where the set-associative search of the set [o, o + w) stops: the lowest
      usable bucket of the set, or o when none is usable. */
  predicate FirstUsable(fi: map<nat, nat>, tags: map<nat, nat>, cs: seq<LlqFlow>, flowHash: nat, o: nat, w: nat, r: nat)
  {
    && o <= r < o + w
    && ((Usable(fi, tags, cs, r, flowHash) && forall j :: o <= j < r ==> !Usable(fi, tags, cs, j, flowHash))
        || (r == o && forall j :: o <= j < o + w ==> !Usable(fi, tags, cs, j, flowHash)))
  }

  /** The first bucket of the set of h (the source's outerHash, h minus innerHash = h mod setWays). */
  function SetStart(h: nat, setWays: nat): nat
    requires setWays > 0
  {
    h - h % setWays
  }

  /** When the number of buckets is a multiple of the set size, the set of a bucket
      below that number lies below it too. */
  lemma SetWithinFlows(h: nat, setWays: nat, flows: nat)
    requires h < flows && setWays > 0 && flows % setWays == 0
    ensures SetStart(h, setWays) + setWays <= flows
  {
    var q, k := h / setWays, flows / setWays;
    assert h == q * setWays + h % setWays;
    assert flows == k * setWays;
    assert q < k by {
      assert q * setWays < k * setWays;
    }
    assert (q + 1) * setWays <= k * setWays;
  }

  /** The drop events of the packets dropped from a flow's head, in order. */
  function Overlimits(s: seq<nat>): (ev: seq<DropEvent>)
    ensures |ev| == |s|
    ensures forall k :: 0 <= k < |s| ==> ev[k] == OverlimitDrop(s[k])
  {
    if s == [] then [] else Overlimits(s[..|s| - 1]) + [OverlimitDrop(s[|s| - 1])]
  }

  /** A flow whose FIFO changes to one with positive sizes keeps the positive-size invariant. */
  lemma PositiveSizesUpdate(cs: seq<LlqFlow>, i: nat, f: LlqFlow)
    requires PositiveSizes(cs) && i < |cs| && forall k :: 0 <= k < |f.backlog| ==> f.backlog[k] > 0
    ensures PositiveSizes(cs[i := f])
  {
  }

  /** With positive sizes, packets mean bytes. */
  lemma {:induction false} PacketsHaveBytes(cs: seq<LlqFlow>)
    requires PositiveSizes(cs) && TotalPackets(cs) > 0
    ensures TotalBytes(cs) > 0
  {
    if cs[0].backlog != [] {
      assert cs[0].backlog == [cs[0].backlog[0]] + cs[0].backlog[1..];
      assert Sum(cs[0].backlog) >= cs[0].backlog[0] > 0;
    } else {
      assert PositiveSizes(cs[1..]) by {
        forall i, k | 0 <= i < |cs[1..]| && 0 <= k < |cs[1..][i].backlog| ensures cs[1..][i].backlog[k] > 0 {
          assert cs[1..][i] == cs[i + 1];
        }
      }
      PacketsHaveBytes(cs[1..]);
    }
  }

  /** Some flow holds the bytes of a positive byte total. */
  lemma {:induction false} SomeFlowHasBytes(cs: seq<LlqFlow>)
    requires TotalBytes(cs) > 0
    ensures exists j :: 0 <= j < |cs| && Sum(cs[j].backlog) > 0
  {
    if Sum(cs[0].backlog) == 0 {
      SomeFlowHasBytes(cs[1..]);
      var j :| 0 <= j < |cs[1..]| && Sum(cs[1..][j].backlog) > 0;
      assert cs[1..][j] == cs[j + 1];
    }
  }

  /** Two flow tables holding the same FIFOs. */
  predicate SameBacklogs(cs: seq<LlqFlow>, ds: seq<LlqFlow>)
  {
    |cs| == |ds| && forall j :: 0 <= j < |cs| ==> cs[j].backlog == ds[j].backlog
  }

  predicate SameIndices(cs: seq<LlqFlow>, ds: seq<LlqFlow>)
  {
    |cs| == |ds| && forall j :: 0 <= j < |cs| ==> cs[j].index == ds[j].index
  }

  /** A table with the FIFOs and buckets of one that met the invariants meets them too. */
  lemma Restored(fi: map<nat, nat>, cs: seq<LlqFlow>, ds: seq<LlqFlow>)
    requires IndexMatch(fi, cs) && PositiveSizes(cs) && SameBacklogs(ds, cs) && SameIndices(ds, cs)
    ensures IndexMatch(fi, ds) && PositiveSizes(ds)
  {
  }

  /** Serving flow i's head packet from a table with the FIFOs of `orig` takes exactly one
      packet and its bytes off the totals. */
  lemma ServedTotals(cs: seq<LlqFlow>, orig: seq<LlqFlow>, ds: seq<LlqFlow>, i: nat)
    requires SameBacklogs(cs, orig) && i < |cs| && cs[i].backlog != []
    requires SameBacklogs(ds, cs[i := cs[i].(backlog := cs[i].backlog[1..])])
    ensures TotalPackets(ds) + 1 == TotalPackets(orig)
    ensures TotalBytes(ds) + cs[i].backlog[0] == TotalBytes(orig)
  {
    var f := cs[i].(backlog := cs[i].backlog[1..]);
    TotalsSameBacklogs(cs, orig);
    TotalsSameBacklogs(ds, cs[i := f]);
    TotalsUpdate(cs, i, f);
    assert cs[i].backlog == [cs[i].backlog[0]] + f.backlog;
    assert Sum(cs[i].backlog) == cs[i].backlog[0] + Sum(f.backlog);
  }

  /** The flow hash of an arrival: the packet's own hash when no filter is installed, else
      the filters' verdict; None (drop as unclassified) when no filter matched. */
  function FlowHash(hasFilters: bool, a: LlqArrival): (r: Option<nat>)
    ensures r.None? <==> hasFilters && a.filterResult.None?
    ensures !hasFilters ==> r == Some(a.hash)
    ensures hasFilters && a.filterResult.Some? ==> r == a.filterResult
  {
    if !hasFilters then Some(a.hash) else a.filterResult
  }

  /** Dropping the first `k` packets of `b` is where the drop loop of LLQDrop ends: at least
      one packet, then the batch size reached or half the bytes (rounded down) dropped, and
      neither of these earlier. */
  predicate BatchEnds(b: seq<nat>, dropBatchSize: nat, k: int)
  {
    && 1 <= k <= |b|
    && (k >= dropBatchSize || Sum(b[..k]) >= Sum(b) / 2)
    && (forall m :: 1 <= m < k ==> m < dropBatchSize && Sum(b[..m]) < Sum(b) / 2)
  }

  /** The drop loop of LLQDrop on the fat flow's FIFO `b`: how many packets it removes from the
      head. At least one goes; it stops once the batch size is reached or the dropped bytes reach
      half the flow's bytes (rounded down), and not before. */
  method DropCount(b: seq<nat>, dropBatchSize: nat) returns (count: nat)
    requires Sum(b) > 0
    ensures BatchEnds(b, dropBatchSize, count)
  {
    var len := 0;
    count := 0;
    var threshold := Sum(b) / 2;
    var q := b;
    while true
      invariant 0 <= count <= |b| && q == b[count..]
      invariant len == Sum(b[..count]) && threshold == Sum(b) / 2
      invariant count > 0 ==> len < threshold && count < dropBatchSize
      invariant forall m :: 1 <= m <= count ==> m < dropBatchSize && Sum(b[..m]) < Sum(b) / 2
      decreases |q|
    {
      SumSplit(b, count);
      assert Sum(q) > 0;
      assert q != [];
      var item := q[0];
      q := q[1..];
      assert b[count..][1..] == b[count + 1..];
      SumPrefixStep(b, count);
      len := len + item;
      count := count + 1;
      if !(count < dropBatchSize && len < threshold) {
        break;
      }
    }
  }

  // ---------------------------------------------------------------- what an arrival does

  /** The bucket DoEnqueue picks for flow hash fh: the hash modulo the number of buckets, or,
      with set-associative hashing, where the search of the hash's set stops. */
  predicate BucketChoice(sa: bool, fi: map<nat, nat>, tags: map<nat, nat>, cs: seq<LlqFlow>,
                         fh: nat, flows: nat, setWays: nat, h: nat)
  {
    if !sa then flows > 0 && h == fh % flows
    else flows > 0 && setWays > 0 && FirstUsable(fi, tags, cs, fh, SetStart(fh % flows, setWays), setWays, h)
  }

  /** Flow f after an arrival: made NEW_FLOW with a quantum of deficit when it was INACTIVE,
      then given the packet at the tail of its FIFO when its child accepts it. */
  function Joined(f: LlqFlow, quantum: nat, size: nat, accepts: bool): LlqFlow
  {
    var g := if f.status == Inactive then f.(status := NewFlow, deficit := quantum) else f;
    if accepts then g.(backlog := g.backlog + [size]) else g
  }

  /** The arrival joins class i of bucket h: the bucket's existing class, or a new class
      added last and recorded under h.  That flow becomes Joined, it is appended to the
      new-flows deque exactly when it was INACTIVE, and no other class changes. */
  predicate Joins(fi: map<nat, nat>, cs: seq<LlqFlow>, nf: seq<nat>,
                  fi': map<nat, nat>, cs': seq<LlqFlow>, nf': seq<nat>,
                  i: nat, h: nat, quantum: nat, size: nat, accepts: bool)
  {
    && (h in fi ==> i == fi[h] && fi' == fi && |cs'| == |cs|)
    && (h !in fi ==> i == |cs| && fi' == fi[h := i] && |cs'| == |cs| + 1)
    && i < |cs'|
    && (forall j :: 0 <= j < |cs| && j != i ==> cs'[j] == cs[j])
    && var f := if i < |cs| then cs[i] else LlqFlow(0, Inactive, h, []);
       && cs'[i] == Joined(f, quantum, size, accepts)
       && nf' == nf + (if f.status == Inactive then [i] else [])
  }

  /** Class x is the fat flow: the first class with the largest byte backlog. */
  predicate FatAt(cs: seq<LlqFlow>, x: nat)
  {
    && x < |cs|
    && (forall j :: 0 <= j < |cs| ==> Sum(cs[j].backlog) <= Sum(cs[x].backlog))
    && (forall j :: 0 <= j < x ==> Sum(cs[j].backlog) < Sum(cs[x].backlog))
  }

  /** What the overload rule did: nothing when it did not fire (fat is None); otherwise only
      the fat flow changed, losing from its head the batch BatchEnds describes, and each
      dropped packet was logged. */
  predicate Trimmed(cs: seq<LlqFlow>, cs': seq<LlqFlow>, fat: Option<nat>, dropBatchSize: nat,
                    log: seq<DropEvent>, log': seq<DropEvent>)
  {
    if fat.None? then cs' == cs && log' == log
    else
      var x := fat.value;
      && FatAt(cs, x) && |cs'| == |cs|
      && var b := cs[x].backlog;
         var k := |b| - |cs'[x].backlog|;
         && BatchEnds(b, dropBatchSize, k)
         && cs' == cs[x := cs[x].(backlog := b[k..])]
         && log' == log + Overlimits(b[..k])
  }

  // ---------------------------------------------------------------- the dequeue schedule

  /** The scheduler's state: the flows and the two deques. */
  datatype Sched = Sched(classes: seq<LlqFlow>, newFlows: seq<nat>, oldFlows: seq<nat>)

  predicate Scheduled(s: Sched)
  {
    ListsMatch(s.classes, s.newFlows, s.oldFlows)
  }

  /** Flow i is the one DoDequeue selects once the scans are over: the front of the new-flows
      deque or, when that is empty, of the old-flows deque. */
  predicate IsFront(s: Sched, i: nat)
  {
    (s.newFlows != [] && s.newFlows[0] == i) || (s.newFlows == [] && s.oldFlows != [] && s.oldFlows[0] == i)
  }

  /** Every entry of deque s names a flow of cs. */
  predicate Indexes(cs: seq<LlqFlow>, s: seq<nat>)
  {
    forall k :: 0 <= k < |s| ==> s[k] < |cs|
  }

  /** Every entry of deque s names an OLD_FLOW flow of cs. */
  predicate OldFronts(cs: seq<LlqFlow>, s: seq<nat>)
  {
    forall k :: 0 <= k < |s| ==> s[k] < |cs| && cs[s[k]].status == OldFlow
  }

  /** The new-flows loop of DoDequeue: while the front has no positive deficit it gains a
      quantum, becomes OLD_FLOW and moves to the tail of the old-flows deque. */
  function NewScanOf(s: Sched, quantum: nat): (r: Sched)
    requires Indexes(s.classes, s.newFlows)
    ensures |r.classes| == |s.classes| && Indexes(r.classes, r.newFlows)
    ensures |r.newFlows| <= |s.newFlows| && (|r.newFlows| == |s.newFlows| ==> r == s)
    ensures r.newFlows != [] ==> r.classes[r.newFlows[0]].deficit > 0
    decreases |s.newFlows|
  {
    if s.newFlows == [] || s.classes[s.newFlows[0]].deficit > 0 then s
    else NewScanOf(Demoted(s, s.classes[s.newFlows[0]].deficit + quantum), quantum)
  }

  /** The front of the new-flows deque becomes OLD_FLOW with deficit d and moves to the tail
      of the old-flows deque (a step of the new-flows loop, and the empty-flow case of the
      child dequeue while new flows remain). */
  function Demoted(s: Sched, d: int): (r: Sched)
    requires s.newFlows != [] && Indexes(s.classes, s.newFlows)
    ensures |r.classes| == |s.classes| && Indexes(r.classes, r.newFlows)
  {
    var i := s.newFlows[0];
    Sched(s.classes[i := s.classes[i].(status := OldFlow, deficit := d)], s.newFlows[1..], s.oldFlows + [i])
  }

  /** The front of the old-flows deque becomes INACTIVE and leaves it. */
  function Retired(s: Sched): Sched
    requires s.oldFlows != [] && s.oldFlows[0] < |s.classes|
  {
    var i := s.oldFlows[0];
    Sched(s.classes[i := s.classes[i].(status := Inactive)], s.newFlows, s.oldFlows[1..])
  }

  /** The old-flows loop of DoDequeue: while the front has no positive deficit it gains a
      quantum and moves to the tail.  A positive quantum makes it end. */
  function OldScanOf(s: Sched, quantum: nat): (r: Sched)
    requires OldFronts(s.classes, s.oldFlows) && quantum > 0
    ensures |r.classes| == |s.classes| && OldFronts(r.classes, r.oldFlows)
    ensures r.newFlows == s.newFlows && |r.oldFlows| == |s.oldFlows|
    ensures r.oldFlows != [] ==> r.classes[r.oldFlows[0]].deficit > 0
    decreases Need(s.classes)
  {
    if s.oldFlows == [] || s.classes[s.oldFlows[0]].deficit > 0 then s
    else
      NeedDecreases(s.classes, s.oldFlows[0], quantum);
      OldScanOf(RotateOld(s, quantum), quantum)
  }

  /** A new-flows front without positive deficit is one step of the new-flows loop. */
  lemma NewScanUnfold(s: Sched, quantum: nat)
    requires Indexes(s.classes, s.newFlows) && s.newFlows != [] && s.classes[s.newFlows[0]].deficit <= 0
    ensures NewScanOf(s, quantum) == NewScanOf(Demoted(s, s.classes[s.newFlows[0]].deficit + quantum), quantum)
  {
  }

  /** One step of the old-flows loop: the front gains a quantum and moves to the tail. */
  function RotateOld(s: Sched, quantum: nat): (r: Sched)
    requires s.oldFlows != [] && OldFronts(s.classes, s.oldFlows)
    ensures |r.classes| == |s.classes| && OldFronts(r.classes, r.oldFlows)
  {
    var i := s.oldFlows[0];
    var cs := s.classes[i := s.classes[i].(deficit := s.classes[i].deficit + quantum)];
    var of := s.oldFlows[1..] + [i];
    assert OldFronts(cs, of) by {
      forall k | 0 <= k < |of| ensures of[k] < |cs| && cs[of[k]].status == OldFlow {
        if k < |of| - 1 { assert of[k] == s.oldFlows[k + 1]; }
      }
    }
    Sched(cs, s.newFlows, of)
  }

  /** The new-flows loop keeps the deque invariant. */
  lemma {:induction false} NewScanKeeps(s: Sched, quantum: nat)
    requires Scheduled(s)
    ensures Scheduled(NewScanOf(s, quantum))
    decreases |s.newFlows|
  {
    if s.newFlows != [] && s.classes[s.newFlows[0]].deficit <= 0 {
      var d := s.classes[s.newFlows[0]].deficit + quantum;
      var s' := Demoted(s, d);
      ListsMatchNewToOld(s.classes, s.newFlows, s.oldFlows, d);
      NewScanKeeps(s', quantum);
      assert NewScanOf(s, quantum) == NewScanOf(s', quantum);
    }
  }

  /** The new-flows loop keeps every FIFO and every flow's bucket. */
  lemma {:induction false} NewScanSame(s: Sched, quantum: nat)
    requires Indexes(s.classes, s.newFlows)
    ensures SameBacklogs(NewScanOf(s, quantum).classes, s.classes)
    ensures SameIndices(NewScanOf(s, quantum).classes, s.classes)
    decreases |s.newFlows|
  {
    if s.newFlows != [] && s.classes[s.newFlows[0]].deficit <= 0 {
      var s' := Demoted(s, s.classes[s.newFlows[0]].deficit + quantum);
      NewScanSame(s', quantum);
      assert NewScanOf(s, quantum) == NewScanOf(s', quantum);
      assert SameBacklogs(s'.classes, s.classes) && SameIndices(s'.classes, s.classes);
    }
  }

  /** The old-flows loop keeps the deque invariant. */
  lemma {:induction false} OldScanKeeps(s: Sched, quantum: nat)
    requires Scheduled(s) && quantum > 0
    ensures Scheduled(OldScanOf(s, quantum))
    decreases Need(s.classes)
  {
    if s.oldFlows != [] && s.classes[s.oldFlows[0]].deficit <= 0 {
      var s' := RotateOld(s, quantum);
      ListsMatchRotate(s.classes, s.newFlows, s.oldFlows, s.classes[s.oldFlows[0]].deficit + quantum);
      NeedDecreases(s.classes, s.oldFlows[0], quantum);
      OldScanKeeps(s', quantum);
      assert OldScanOf(s, quantum) == OldScanOf(s', quantum);
    }
  }

  /** The old-flows loop keeps every FIFO and every flow's bucket. */
  lemma {:induction false} OldScanSame(s: Sched, quantum: nat)
    requires OldFronts(s.classes, s.oldFlows) && quantum > 0
    ensures SameBacklogs(OldScanOf(s, quantum).classes, s.classes)
    ensures SameIndices(OldScanOf(s, quantum).classes, s.classes)
    decreases Need(s.classes)
  {
    if s.oldFlows != [] && s.classes[s.oldFlows[0]].deficit <= 0 {
      var s' := RotateOld(s, quantum);
      NeedDecreases(s.classes, s.oldFlows[0], quantum);
      OldScanSame(s', quantum);
      assert OldScanOf(s, quantum) == OldScanOf(s', quantum);
      assert SameBacklogs(s'.classes, s.classes) && SameIndices(s'.classes, s.classes);
    }
  }

  /** The child dequeue of DoDequeue on the selected flow i: its head packet, charged to its
      deficit; or, when its FIFO is empty, None, and the flow leaves its deque: to the tail
      of the old-flows deque as OLD_FLOW while new flows remain, as INACTIVE otherwise. */
  function ServeOf(s: Sched, i: nat): (r: (Option<nat>, Sched))
    requires Scheduled(s) && IsFront(s, i)
    ensures Scheduled(r.1) && |r.1.classes| == |s.classes|
    ensures r.0.None? ==> SameBacklogs(r.1.classes, s.classes)
    ensures r.0.None? ==>
              |r.1.newFlows| < |s.newFlows| || (r.1.newFlows == s.newFlows && |r.1.oldFlows| < |s.oldFlows|)
  {
    var f := s.classes[i];
    if f.backlog == [] then
      if s.newFlows != [] then
        ListsMatchNewToOld(s.classes, s.newFlows, s.oldFlows, f.deficit);
        (None, Demoted(s, f.deficit))
      else
        ListsMatchRetire(s.classes, s.newFlows, s.oldFlows);
        (None, Retired(s))
    else
      var g := f.(backlog := f.backlog[1..], deficit := f.deficit - f.backlog[0]);
      ListsMatchSameStatus(s.classes, s.newFlows, s.oldFlows, i, g);
      (Some(f.backlog[0]), Sched(s.classes[i := g], s.newFlows, s.oldFlows))
  }

  /** One pass of DoDequeue's do-while body: its packet (if any), whether the loop ends, the
      flow selected and the state after it. */
  datatype Pass = Pass(item: Option<nat>, done: bool, served: nat, next: Sched)

  /** One pass: the new-flows loop, then either the child dequeue of the new-flows front,
      or the old-flows loop and the child dequeue of the old-flows front, or, with both
      deques empty, None and the end of the loop. */
  function RoundOf(s: Sched, quantum: nat): (p: Pass)
    requires Scheduled(s) && quantum > 0
    ensures Scheduled(p.next)
    ensures p.item.Some? ==> p.done
    ensures !p.done ==>
              |p.next.newFlows| < |s.newFlows| || (|p.next.newFlows| == |s.newFlows| && |p.next.oldFlows| < |s.oldFlows|)
  {
    NewScanKeeps(s, quantum);
    NewScanSame(s, quantum);
    var a := NewScanOf(s, quantum);
    if a.newFlows != [] then
      var r := ServeOf(a, a.newFlows[0]);
      Pass(r.0, r.0.Some?, a.newFlows[0], r.1)
    else
      OldScanKeeps(a, quantum);
      OldScanSame(a, quantum);
      var b := OldScanOf(a, quantum);
      if b.oldFlows == [] then Pass(None, true, 0, b)
      else
        var r := ServeOf(b, b.oldFlows[0]);
        Pass(r.0, r.0.Some?, b.oldFlows[0], r.1)
  }

  /** DoDequeue's whole do-while loop: passes until one ends it; the packet, the flow served
      and the state after it. */
  function DequeueOf(s: Sched, quantum: nat): (Option<nat>, nat, Sched)
    requires Scheduled(s) && quantum > 0
    decreases |s.newFlows|, |s.oldFlows|
  {
    var p := RoundOf(s, quantum);
    if p.done then (p.item, p.served, p.next) else DequeueOf(p.next, quantum)
  }

  /** Flow i of cs was served packet x, leaving t: i had x at the head of its FIFO, t holds
      every FIFO of cs but with that packet gone, i had a positive deficit before being
      charged x, and i is still at the front of its deque. */
  predicate Served(cs: seq<LlqFlow>, x: nat, i: nat, t: Sched)
  {
    && i < |cs| && cs[i].backlog != [] && x == cs[i].backlog[0]
    && SameBacklogs(t.classes, cs[i := cs[i].(backlog := cs[i].backlog[1..])])
    && t.classes[i].deficit + x > 0
    && IsFront(t, i)
  }

  /** One pass either serves the head packet of the flow it selects, or takes no packet and
      moves no packet; it ends without a packet only when no flow is active, and then the
      disc holds none. */
  lemma RoundFacts(s: Sched, quantum: nat)
    requires Scheduled(s) && quantum > 0
    ensures var p := RoundOf(s, quantum);
            && |p.next.classes| == |s.classes|
            && (p.item.None? ==> SameBacklogs(p.next.classes, s.classes))
            && (p.item.None? && p.done ==>
                  TotalPackets(s.classes) == 0 && p.next.newFlows == [] && p.next.oldFlows == [])
            && (p.item.Some? ==> Served(s.classes, p.item.value, p.served, p.next))
  {
    NewScanKeeps(s, quantum);
    NewScanSame(s, quantum);
    var a := NewScanOf(s, quantum);
    if a.newFlows != [] {
      ServeFacts(s.classes, a, a.newFlows[0]);
    } else {
      OldScanKeeps(a, quantum);
      OldScanSame(a, quantum);
      var b := OldScanOf(a, quantum);
      if b.oldFlows == [] {
        EmptyListsNoPackets(b.classes);
        TotalsSameBacklogs(b.classes, s.classes);
      } else {
        ServeFacts(s.classes, b, b.oldFlows[0]);
      }
    }
  }

  /** Serving the front flow i of a, whose backlogs are those of cs and whose deficit the
      scans left positive: either no packet moves, or i's head packet is served. */
  lemma ServeFacts(cs: seq<LlqFlow>, a: Sched, i: nat)
    requires Scheduled(a) && IsFront(a, i) && SameBacklogs(a.classes, cs)
    requires i < |a.classes| && a.classes[i].deficit > 0
    ensures var r := ServeOf(a, i);
            && (r.0.None? ==> SameBacklogs(r.1.classes, cs))
            && (r.0.Some? ==> Served(cs, r.0.value, i, r.1))
  {
    var r := ServeOf(a, i);
    if r.0.Some? {
      assert a.classes[i].backlog == cs[i].backlog;
      assert r.1.classes == a.classes[i := r.1.classes[i]];
    }
  }

  /** The whole dequeue: no packet exactly when the disc holds none, and then no packet
      moved and both deques are empty; otherwise the head packet of the flow served, which
      leaves the totals one packet and its size lower. */
  lemma {:induction false} DequeueFacts(s: Sched, quantum: nat)
    requires Scheduled(s) && quantum > 0
    ensures var r := DequeueOf(s, quantum);
            && |r.2.classes| == |s.classes|
            && (r.0.None? <==> TotalPackets(s.classes) == 0)
            && (r.0.None? ==> SameBacklogs(r.2.classes, s.classes) && r.2.newFlows == [] && r.2.oldFlows == [])
            && (r.0.Some? ==> Served(s.classes, r.0.value, r.1, r.2))
    decreases |s.newFlows|, |s.oldFlows|
  {
    RoundFacts(s, quantum);
    var p := RoundOf(s, quantum);
    var r := DequeueOf(s, quantum);
    if p.done {
      assert r == (p.item, p.served, p.next);
    } else {
      DequeueFacts(p.next, quantum);
      assert r == DequeueOf(p.next, quantum);
      TotalsSameBacklogs(p.next.classes, s.classes);
    }
    if r.0.Some? {
      PacketsPositive(s.classes, r.1);
    }
  }

  /** Serving a packet takes exactly that packet, and its bytes, off the totals. */
  lemma ServedMoves(cs: seq<LlqFlow>, x: nat, i: nat, t: Sched)
    requires Served(cs, x, i, t)
    ensures TotalPackets(t.classes) + 1 == TotalPackets(cs) && TotalBytes(t.classes) + x == TotalBytes(cs)
  {
    ServedTotals(cs, cs, t.classes, i);
  }

  /** The new-flows loop moves a prefix of k flows from the new-flows deque to the tail of
      the old-flows deque, in order. */
  lemma {:induction false} NewScanDeques(s: Sched, quantum: nat)
    requires Indexes(s.classes, s.newFlows)
    ensures var r := NewScanOf(s, quantum);
            var k := |s.newFlows| - |r.newFlows|;
            && 0 <= k <= |s.newFlows|
            && r.newFlows == s.newFlows[k..] && r.oldFlows == s.oldFlows + s.newFlows[..k]
    decreases |s.newFlows|
  {
    var nf := s.newFlows;
    if nf == [] || s.classes[nf[0]].deficit > 0 {
      assert nf[..0] == [];
    } else {
      var s' := Demoted(s, s.classes[nf[0]].deficit + quantum);
      NewScanDeques(s', quantum);
      var r := NewScanOf(s, quantum);
      assert r == NewScanOf(s', quantum);
      MovedPrefix(s.oldFlows, nf, |nf| - |r.newFlows|, r.oldFlows, r.newFlows);
    }
  }

  /** None of the flows the new-flows loop moves had a positive deficit. */
  lemma {:induction false} NewScanSkips(s: Sched, quantum: nat)
    requires Indexes(s.classes, s.newFlows)
    ensures var r := NewScanOf(s, quantum);
            forall m :: 0 <= m < |s.newFlows| - |r.newFlows| ==> s.classes[s.newFlows[m]].deficit <= 0
    decreases |s.newFlows|
  {
    var nf := s.newFlows;
    if nf != [] && s.classes[nf[0]].deficit <= 0 {
      var i := nf[0];
      var s' := Demoted(s, s.classes[i].deficit + quantum);
      NewScanSkips(s', quantum);
      var r := NewScanOf(s, quantum);
      assert r == NewScanOf(s', quantum);
      forall m | 0 <= m < |nf| - |r.newFlows| ensures s.classes[nf[m]].deficit <= 0 {
        if m > 0 && nf[m] != i {
          assert nf[m] == s'.newFlows[m - 1];
          assert s'.classes[nf[m]] == s.classes[nf[m]];
        }
      }
    }
  }

  /** The flows the new-flows loop moves become OLD_FLOW with their deficit raised by one
      quantum; no other flow changes. */
  lemma {:induction false} NewScanClasses(s: Sched, quantum: nat)
    requires Indexes(s.classes, s.newFlows) && Distinct(s.newFlows)
    ensures var r := NewScanOf(s, quantum);
            var k := |s.newFlows| - |r.newFlows|;
            && 0 <= k <= |s.newFlows| && |r.classes| == |s.classes|
            && forall j :: 0 <= j < |s.classes| ==>
                 r.classes[j] == if j in s.newFlows[..k]
                                 then s.classes[j].(status := OldFlow, deficit := s.classes[j].deficit + quantum)
                                 else s.classes[j]
    decreases |s.newFlows|
  {
    var nf := s.newFlows;
    if nf == [] || s.classes[nf[0]].deficit > 0 {
      assert nf[..0] == [];
    } else {
      var i := nf[0];
      var d := s.classes[i].deficit + quantum;
      DistinctTail(nf);
      var s' := Demoted(s, d);
      NewScanClasses(s', quantum);
      var r := NewScanOf(s, quantum);
      assert r == NewScanOf(s', quantum);
      var k := |nf| - |r.newFlows|;
      var t := nf[1..][..k - 1];
      FrontOutsidePrefix(nf, k);
      forall j | 0 <= j < |s.classes|
        ensures r.classes[j] == if j in nf[..k]
                                then s.classes[j].(status := OldFlow, deficit := s.classes[j].deficit + quantum)
                                else s.classes[j]
      {
        if j == i {
          assert j in nf[..k] && j !in t;
          assert r.classes[j] == s'.classes[j];
        } else {
          assert s'.classes[j] == s.classes[j];
          assert (j in nf[..k]) == (j in t);
        }
      }
    }
  }

  /** What the new-flows loop did to s, giving r: for k the number of flows it moved, the
      first k flows of the new-flows deque, none of them with a positive deficit, moved in
      order to the tail of the old-flows deque, each as OLD_FLOW with its deficit raised by
      one quantum; no other flow changed. */
  predicate NewScanned(s: Sched, r: Sched, quantum: nat)
  {
    var k := |s.newFlows| - |r.newFlows|;
    && 0 <= k <= |s.newFlows|
    && r.newFlows == s.newFlows[k..] && r.oldFlows == s.oldFlows + s.newFlows[..k]
    && (forall m :: 0 <= m < k ==> s.newFlows[m] < |s.classes| && s.classes[s.newFlows[m]].deficit <= 0)
    && |r.classes| == |s.classes|
    && forall j :: 0 <= j < |s.classes| ==>
         r.classes[j] == if j in s.newFlows[..k]
                         then s.classes[j].(status := OldFlow, deficit := s.classes[j].deficit + quantum)
                         else s.classes[j]
  }

  /** The new-flows loop does exactly what NewScanned says. */
  lemma NewScanExact(s: Sched, quantum: nat)
    requires Indexes(s.classes, s.newFlows) && Distinct(s.newFlows)
    ensures NewScanned(s, NewScanOf(s, quantum), quantum)
  {
    NewScanDeques(s, quantum);
    NewScanSkips(s, quantum);
    NewScanClasses(s, quantum);
  }

  /** Moving the head of nf and then k - 1 more flows moves the first k. */
  lemma MovedPrefix(of: seq<nat>, nf: seq<nat>, k: nat, of': seq<nat>, nf': seq<nat>)
    requires 1 <= k <= |nf|
    requires nf' == nf[1..][k - 1..] && of' == (of + [nf[0]]) + nf[1..][..k - 1]
    ensures nf' == nf[k..] && of' == of + nf[..k]
  {
    PrefixCons(nf, k);
  }

  /** The tail of a distinct sequence is distinct. */
  lemma DistinctTail(s: seq<nat>)
    requires s != [] && Distinct(s)
    ensures Distinct(s[1..])
  {
    forall a, b | 0 <= a < b < |s[1..]| ensures s[1..][a] != s[1..][b] {
      assert s[1..][a] == s[a + 1] && s[1..][b] == s[b + 1];
    }
  }

  /** The first k elements of a distinct sequence are its head followed by k - 1 elements
      of its tail, none of them equal to the head. */
  lemma FrontOutsidePrefix(s: seq<nat>, k: nat)
    requires 1 <= k <= |s| && Distinct(s)
    ensures s[..k] == [s[0]] + s[1..][..k - 1] && s[0] !in s[1..][..k - 1]
  {
    var t := s[1..][..k - 1];
    forall m | 0 <= m < |t| ensures t[m] != s[0] {
      assert t[m] == s[m + 1];
    }
  }

  /** A non-empty prefix of s is its head followed by a prefix of its tail. */
  lemma PrefixCons(s: seq<nat>, k: nat)
    requires 1 <= k <= |s|
    ensures s[..k] == [s[0]] + s[1..][..k - 1] && s[1..][k - 1..] == s[k..]
  {
  }

  /** The sequence s rotated left by n places. */
  function Rotated(s: seq<nat>, n: nat): seq<nat>
    requires n <= |s|
  {
    s[n..] + s[..n]
  }

  /** Rotating one more place. */
  lemma RotatedStep(s: seq<nat>, n: nat)
    requires s != [] && n < |s|
    ensures Rotated(s[1..] + [s[0]], n) == Rotated(s, n + 1)
  {
    var t := s[1..] + [s[0]];
    assert t[n..] == s[n + 1..] + [s[0]];
    assert t[..n] == s[1..n + 1];
    assert s[..n + 1] == [s[0]] + s[1..n + 1];
  }

  /** The old-flows loop leaves the old-flows deque rotated. */
  lemma {:induction false} OldScanRotation(s: Sched, quantum: nat)
    requires OldFronts(s.classes, s.oldFlows) && quantum > 0
    ensures exists n :: 0 <= n <= |s.oldFlows| && OldScanOf(s, quantum).oldFlows == Rotated(s.oldFlows, n)
    decreases Need(s.classes)
  {
    var of := s.oldFlows;
    if of == [] || s.classes[of[0]].deficit > 0 {
      assert of == Rotated(of, 0);
    } else {
      NeedDecreases(s.classes, of[0], quantum);
      var s' := RotateOld(s, quantum);
      OldScanRotation(s', quantum);
      var r := OldScanOf(s, quantum);
      assert r == OldScanOf(s', quantum);
      var n' :| 0 <= n' <= |s'.oldFlows| && r.oldFlows == Rotated(s'.oldFlows, n');
      if n' < |of| {
        RotatedStep(of, n');
      } else {
        assert r.oldFlows == Rotated(of, 1);
      }
    }
  }

  /** The old-flows loop changes only deficits and never lowers one; it leaves every flow
      that already had a positive deficit, and every flow outside the deque, as it was. */
  lemma {:induction false} OldScanClasses(s: Sched, quantum: nat)
    requires OldFronts(s.classes, s.oldFlows) && quantum > 0
    ensures var r := OldScanOf(s, quantum);
            forall j :: 0 <= j < |s.classes| ==>
              && r.classes[j] == s.classes[j].(deficit := r.classes[j].deficit)
              && r.classes[j].deficit >= s.classes[j].deficit
              && (s.classes[j].deficit > 0 || j !in s.oldFlows ==> r.classes[j] == s.classes[j])
    decreases Need(s.classes)
  {
    var of := s.oldFlows;
    if of != [] && s.classes[of[0]].deficit <= 0 {
      var i := of[0];
      NeedDecreases(s.classes, i, quantum);
      var s' := RotateOld(s, quantum);
      OldScanClasses(s', quantum);
      var r := OldScanOf(s, quantum);
      assert r == OldScanOf(s', quantum);
      forall j | 0 <= j < |s.classes|
        ensures && r.classes[j] == s.classes[j].(deficit := r.classes[j].deficit)
                && r.classes[j].deficit >= s.classes[j].deficit
                  && (s.classes[j].deficit > 0 || j !in of ==> r.classes[j] == s.classes[j])
      {
        if j != i {
          assert s'.classes[j] == s.classes[j];
          assert j in s'.oldFlows <==> j in of;
        }
      }
    }
  }

  /** What the old-flows loop did to s, giving r: the old-flows deque rotated by some n
      places and the new-flows deque untouched; only deficits changed, none went down, and a
      flow that already had a positive deficit, or was not in the deque, did not change. */
  predicate OldScanned(s: Sched, r: Sched)
  {
    && (exists n :: 0 <= n <= |s.oldFlows| && r.oldFlows == Rotated(s.oldFlows, n))
    && r.newFlows == s.newFlows
    && |r.classes| == |s.classes|
    && forall j :: 0 <= j < |s.classes| ==>
         && r.classes[j] == s.classes[j].(deficit := r.classes[j].deficit)
         && r.classes[j].deficit >= s.classes[j].deficit
         && (s.classes[j].deficit > 0 || j !in s.oldFlows ==> r.classes[j] == s.classes[j])
  }

  /** The old-flows loop does exactly what OldScanned says. */
  lemma OldScanExact(s: Sched, quantum: nat)
    requires OldFronts(s.classes, s.oldFlows) && quantum > 0
    ensures OldScanned(s, OldScanOf(s, quantum))
  {
    OldScanRotation(s, quantum);
    OldScanClasses(s, quantum);
  }

  /** The new-flows loop of DoDequeue: while the front has no positive deficit it gains a
      quantum and moves, as OLD_FLOW, to the tail of the old-flows deque. */
  method ScanNewFlows(s: Sched, quantum: nat) returns (r: Sched)
    requires Indexes(s.classes, s.newFlows)
    ensures r == NewScanOf(s, quantum)
  {
    var cs: seq<LlqFlow>, nf: seq<nat>, of: seq<nat> := s.classes, s.newFlows, s.oldFlows;
    while nf != [] && cs[nf[0]].deficit <= 0
      invariant Indexes(cs, nf)
      invariant NewScanOf(Sched(cs, nf, of), quantum) == NewScanOf(s, quantum)
      decreases |nf|
    {
      var i := nf[0];
      ghost var t := Sched(cs, nf, of);
      NewScanUnfold(t, quantum);
      cs, nf, of := cs[i := cs[i].(status := OldFlow, deficit := cs[i].deficit + quantum)], nf[1..], of + [i];
      assert Sched(cs, nf, of) == Demoted(t, t.classes[i].deficit + quantum);
    }
    r := Sched(cs, nf, of);
  }

  /** The old-flows loop of DoDequeue: while the front has no positive deficit it gains a
      quantum and rotates to the tail.  A positive quantum makes it end. */
  method ScanOldFlows(s: Sched, quantum: nat) returns (r: Sched)
    requires OldFronts(s.classes, s.oldFlows) && quantum > 0
    ensures r == OldScanOf(s, quantum)
  {
    var cs: seq<LlqFlow>, nf: seq<nat>, of: seq<nat> := s.classes, s.newFlows, s.oldFlows;
    while of != [] && cs[of[0]].deficit <= 0
      invariant OldFronts(cs, of)
      invariant OldScanOf(Sched(cs, nf, of), quantum) == OldScanOf(s, quantum)
      decreases Need(cs)
    {
      var i := of[0];
      ghost var t := Sched(cs, nf, of);
      NeedDecreases(cs, i, quantum);
      cs, of := cs[i := cs[i].(deficit := cs[i].deficit + quantum)], of[1..] + [i];
      assert Sched(cs, nf, of) == RotateOld(t, quantum);
    }
    r := Sched(cs, nf, of);
  }

  class LlqQueueDisc {
    /** m_flows: the number of buckets. */
    var flows: nat
    var setWays: nat
    var enableSetAssociativeHash: bool
    var quantum: nat
    var dropBatchSize: nat
    /** The disc's limit and whether it counts bytes (otherwise packets). */
    var maxSize: nat
    var limitInBytes: bool
    /** Whether packet filters are installed (they replace the hash). */
    var hasFilters: bool
    var flowsIndices: map<nat, nat>
    var tags: map<nat, nat>
    /** The queue disc classes, in the order they were added: one LLQFlow per used bucket. */
    var classes: seq<LlqFlow>
    var newFlows: seq<nat>
    var oldFlows: seq<nat>
    ghost var log: seq<DropEvent>

    predicate Valid()
      reads this`flows, this`setWays, this`enableSetAssociativeHash, this`flowsIndices
      reads this`classes, this`newFlows, this`oldFlows
    {
      && flows > 0
      && (enableSetAssociativeHash ==> setWays > 0)
      && IndexMatch(flowsIndices, classes)
      && ListsMatch(classes, newFlows, oldFlows)
      && PositiveSizes(classes)
    }

    /** The disc's current size in the unit of its limit. */
    function CurrentSize(): nat
      reads this`limitInBytes, this`classes
    {
      if limitInBytes then TotalBytes(classes) else TotalPackets(classes)
    }

    /** The attribute defaults: 1024 buckets, sets of 8, set-associative hashing off, no
        quantum yet (CheckConfig supplies one), batches of 64, a 10240-packet limit. */
    constructor()
      ensures flows == 1024 && setWays == 8 && !enableSetAssociativeHash && quantum == 0
      ensures dropBatchSize == 64 && maxSize == 10240 && !limitInBytes && !hasFilters
      ensures flowsIndices == map[] && tags == map[] && classes == [] && newFlows == [] && oldFlows == []
      ensures log == [] && Valid()
    {
      flows, setWays, enableSetAssociativeHash, quantum := 1024, 8, false, 0;
      dropBatchSize, maxSize, limitInBytes, hasFilters := 64, 10240, false, false;
      flowsIndices, tags, classes, newFlows, oldFlows := map[], map[], [], [], [];
      log := [];
    }

    /** SetAssociativeHash: the first usable bucket of the flow's set, or the set's first
        bucket when none is; the chosen bucket is tagged with the flow's hash. */
    method SetAssociativeHash(flowHash: nat) returns (r: nat)
      requires flows > 0 && setWays > 0
      modifies this`tags
      ensures FirstUsable(flowsIndices, old(tags), classes, flowHash, SetStart(flowHash % flows, setWays), setWays, r)
      ensures flows % setWays == 0 ==> r < flows
      ensures tags == old(tags)[r := flowHash]
    {
      var h := flowHash % flows;
      var outerHash := SetStart(h, setWays);
      if flows % setWays == 0 {
        SetWithinFlows(h, setWays, flows);
      }
      var i := outerHash;
      while i < outerHash + setWays
        invariant outerHash <= i <= outerHash + setWays
        invariant forall j :: outerHash <= j < i ==> !Usable(flowsIndices, tags, classes, j, flowHash)
      {
        if Usable(flowsIndices, tags, classes, i, flowHash) {
          tags := tags[i := flowHash];
          return i;
        }
        i := i + 1;
      }
      tags := tags[outerHash := flowHash];
      return outerHash;
    }
  
    /** The class of bucket h: the existing one, or a new INACTIVE flow added as the next class. */
    method FlowFor(h: nat) returns (i: nat)
      requires Valid()
      modifies this`classes, this`flowsIndices
      ensures Valid()
      ensures i < |classes| && h in flowsIndices && flowsIndices[h] == i
      ensures h in old(flowsIndices) ==>
                i == old(flowsIndices)[h] && classes == old(classes) && flowsIndices == old(flowsIndices)
      ensures h !in old(flowsIndices) ==>
                && i == |old(classes)|
                && classes == old(classes) + [LlqFlow(0, Inactive, h, [])]
                && flowsIndices == old(flowsIndices)[h := i]
      ensures classes[i].index == h && |old(classes)| <= |classes|
      ensures forall j :: 0 <= j < |old(classes)| ==> classes[j] == old(classes)[j]
      ensures i >= |old(classes)| ==> classes[i].status == Inactive
      ensures TotalPackets(classes) == TotalPackets(old(classes)) && CurrentSize() == old(CurrentSize())
    {
      if h !in flowsIndices {
        IndexMatchCreate(flowsIndices, classes, h);
        ListsMatchCreate(classes, newFlows, oldFlows, h);
        TotalsAppendEmpty(classes, LlqFlow(0, Inactive, h, []));
        classes := classes + [LlqFlow(0, Inactive, h, [])];
        flowsIndices := flowsIndices[h := |classes| - 1];
        i := |classes| - 1;
      } else {
        i := flowsIndices[h];
      }
    }

    /** The scan of LLQDrop: the first class with the strictly largest byte backlog and that
        backlog (class 0 and 0 when no class holds a byte). */
    method FatFlow() returns (index: nat, maxBacklog: nat)
      ensures maxBacklog == 0 ==> index == 0
      ensures maxBacklog > 0 ==> index < |classes| && Sum(classes[index].backlog) == maxBacklog
      ensures forall j :: 0 <= j < |classes| ==> Sum(classes[j].backlog) <= maxBacklog
      ensures forall j :: 0 <= j < index ==> Sum(classes[j].backlog) < maxBacklog
    {
      maxBacklog := 0;
      index := 0;
      var i := 0;
      while i < |classes|
        invariant 0 <= i <= |classes|
        invariant maxBacklog == 0 ==> index == 0
        invariant maxBacklog > 0 ==> index < i && Sum(classes[index].backlog) == maxBacklog
        invariant forall j :: 0 <= j < i ==> Sum(classes[j].backlog) <= maxBacklog
        invariant forall j :: 0 <= j < index ==> Sum(classes[j].backlog) < maxBacklog
      {
        var bytes := Sum(classes[i].backlog);
        if bytes > maxBacklog {
          maxBacklog := bytes;
          index := i;
        }
        i := i + 1;
      }
    }

    /** LLQDrop: drop packets from the head of the fat flow, at least one, until the batch
        size is reached or at least half of its backlog (rounded down) has been dropped;
        return the fat flow's class. */
    method LLQDrop() returns (index: nat)
      requires Valid() && TotalBytes(classes) > 0
      modifies this`classes, this`log
      ensures Valid() && |classes| == |old(classes)|
      ensures index < |classes|
      ensures forall j :: 0 <= j < |classes| ==> Sum(old(classes)[j].backlog) <= Sum(old(classes)[index].backlog)
      ensures forall j :: 0 <= j < index ==> Sum(old(classes)[j].backlog) < Sum(old(classes)[index].backlog)
      ensures classes == old(classes)[index := classes[index]]
      ensures var b := old(classes)[index].backlog;
              var k := |b| - |classes[index].backlog|;
              && BatchEnds(b, dropBatchSize, k)
              && classes[index] == old(classes)[index].(backlog := b[k..])
              && log == old(log) + Overlimits(b[..k])
    {
      var maxBacklog;
      index, maxBacklog := FatFlow();
      SomeFlowHasBytes(classes);
      var b := classes[index].backlog;
      var count := DropCount(b, dropBatchSize);
      var q := b[count..];
      var f := classes[index].(backlog := q);
      IndexMatchUpdate(flowsIndices, classes, index, f);
      ListsMatchBacklog(classes, newFlows, oldFlows, index, q);
      PositiveSizesUpdate(classes, index, f);
      classes := classes[index := f];
      log := log + Overlimits(b[..count]);
    }

    /** The overload rule: above the limit, LLQDrop drops a batch from the fat flow (the
        ghost fat names it; None when the rule does not fire). */
    method Overload() returns (ghost fat: Option<nat>)
      requires Valid()
      modifies this`classes, this`log
      ensures Valid()
      ensures fat.Some? <==> old(CurrentSize()) > maxSize
      ensures Trimmed(old(classes), classes, fat, dropBatchSize, old(log), log)
      ensures TotalPackets(classes) + |log| == TotalPackets(old(classes)) + |old(log)|
    {
      fat := None;
      if CurrentSize() > maxSize {
        if !limitInBytes {
          PacketsHaveBytes(classes);
        }
        ghost var cs0 := classes;
        var index := LLQDrop();
        TotalsUpdate(cs0, index, classes[index]);
        fat := Some(index);
      }
    }

    /** The bucket h of a flow hash (set-associative when enabled, else the hash modulo the
        number of buckets) and its class i, created INACTIVE when the bucket had none. */
    method Locate(flowHash: nat) returns (i: nat, h: nat)
      requires Valid()
      modifies this`tags, this`classes, this`flowsIndices
      ensures Valid()
      ensures BucketChoice(enableSetAssociativeHash, old(flowsIndices), old(tags), old(classes), flowHash, flows, setWays, h)
      ensures tags == if enableSetAssociativeHash then old(tags)[h := flowHash] else old(tags)
      ensures i < |classes|
      ensures h in old(flowsIndices) ==>
                i == old(flowsIndices)[h] && classes == old(classes) && flowsIndices == old(flowsIndices)
      ensures h !in old(flowsIndices) ==>
                && i == |old(classes)|
                && classes == old(classes) + [LlqFlow(0, Inactive, h, [])]
                && flowsIndices == old(flowsIndices)[h := i]
      ensures TotalPackets(classes) == TotalPackets(old(classes)) && CurrentSize() == old(CurrentSize())
    {
      if enableSetAssociativeHash {
        h := SetAssociativeHash(flowHash);
      } else {
        h := flowHash % flows;
      }
      i := FlowFor(h);
    }

    /** An arrival at class i: the flow is made NEW_FLOW with a quantum of deficit, at the
        tail of the new-flows deque, when INACTIVE; then its child disc takes the packet at
        its tail or refuses it. */
    method Place(i: nat, size: nat, childAccepts: bool)
      requires Valid() && i < |classes| && size > 0
      modifies this`classes, this`newFlows
      ensures Valid() && |classes| == |old(classes)|
      ensures classes == old(classes)[i := Joined(old(classes)[i], quantum, size, childAccepts)]
      ensures newFlows == old(newFlows) + (if old(classes)[i].status == Inactive then [i] else [])
      ensures TotalPackets(classes) == TotalPackets(old(classes)) + (if childAccepts then 1 else 0)
      ensures CurrentSize() == old(CurrentSize()) + (if !childAccepts then 0 else if limitInBytes then size else 1)
    {
      var f := Joined(classes[i], quantum, size, childAccepts);
      var nf := newFlows + (if classes[i].status == Inactive then [i] else []);
      JoinKeeps(flowsIndices, classes, newFlows, oldFlows, i, quantum, size, childAccepts);
      JoinTotals(classes, i, quantum, size, childAccepts);
      classes, newFlows := classes[i := f], nf;
    }

    /** An arrival with flow hash fh before the overload rule: locate its bucket h and class
        i and place the packet there. */
    method Settle(fh: nat, size: nat, childAccepts: bool) returns (i: nat, h: nat)
      requires Valid() && size > 0
      modifies this`tags, this`classes, this`flowsIndices, this`newFlows
      ensures Valid()
      ensures BucketChoice(enableSetAssociativeHash, old(flowsIndices), old(tags), old(classes), fh, flows, setWays, h)
      ensures tags == if enableSetAssociativeHash then old(tags)[h := fh] else old(tags)
      ensures Joins(old(flowsIndices), old(classes), old(newFlows), flowsIndices, classes, newFlows,
                    i, h, quantum, size, childAccepts)
      ensures CurrentSize() == old(CurrentSize()) + (if !childAccepts then 0 else if limitInBytes then size else 1)
      ensures TotalPackets(classes) == TotalPackets(old(classes)) + (if childAccepts then 1 else 0)
    {
      i, h := Locate(fh);
      Place(i, size, childAccepts);
    }

    /** An arrival with flow hash fh: settle it in its class (the ghost placed is the table
        then), then the overload rule (the ghost fat is the flow it trimmed, if any). */
    method Admit(fh: nat, size: nat, childAccepts: bool)
        returns (i: nat, h: nat, ghost placed: seq<LlqFlow>, ghost fat: Option<nat>)
      requires Valid() && size > 0
      modifies this`tags, this`classes, this`flowsIndices, this`newFlows, this`log
      ensures Valid()
      ensures BucketChoice(enableSetAssociativeHash, old(flowsIndices), old(tags), old(classes), fh, flows, setWays, h)
      ensures tags == if enableSetAssociativeHash then old(tags)[h := fh] else old(tags)
      ensures Joins(old(flowsIndices), old(classes), old(newFlows), flowsIndices, placed, newFlows,
                    i, h, quantum, size, childAccepts)
      ensures fat.Some? <==>
                old(CurrentSize()) + (if !childAccepts then 0 else if limitInBytes then size else 1) > maxSize
      ensures Trimmed(placed, classes, fat, dropBatchSize, old(log), log)
      ensures TotalPackets(classes) + |log| == TotalPackets(old(classes)) + |old(log)| + (if childAccepts then 1 else 0)
    {
      i, h := Settle(fh, size, childAccepts);
      placed := classes;
      fat := Overload();
    }

    /** DoEnqueue: a packet no filter classifies is dropped (the verdict is false); any other
        arrival joins the class i of its bucket h and is accepted (true), even when the child
        refuses it or the overload rule then drops a batch from the fat flow. */
    method DoEnqueue(a: LlqArrival)
        returns (accepted: bool, ghost i: nat, ghost h: nat, ghost placed: seq<LlqFlow>, ghost fat: Option<nat>)
      requires Valid() && a.size > 0
      modifies this`tags, this`classes, this`flowsIndices, this`newFlows, this`log
      ensures Valid()
      ensures accepted <==> FlowHash(hasFilters, a).Some?
      ensures !accepted ==>
                && classes == old(classes) && tags == old(tags) && flowsIndices == old(flowsIndices)
                && newFlows == old(newFlows) && log == old(log) + [UnclassifiedDrop(a.size)]
      ensures accepted ==>
                var fh := FlowHash(hasFilters, a).value;
                && BucketChoice(enableSetAssociativeHash, old(flowsIndices), old(tags), old(classes), fh, flows, setWays, h)
                && tags == (if enableSetAssociativeHash then old(tags)[h := fh] else old(tags))
                && Joins(old(flowsIndices), old(classes), old(newFlows), flowsIndices, placed, newFlows,
                         i, h, quantum, a.size, a.childAccepts)
                && (fat.Some? <==>
                      old(CurrentSize()) + (if !a.childAccepts then 0 else if limitInBytes then a.size else 1) > maxSize)
                && Trimmed(placed, classes, fat, dropBatchSize, old(log), log)
      ensures TotalPackets(classes) + |log| ==
                TotalPackets(old(classes)) + |old(log)| + (if accepted && !a.childAccepts then 0 else 1)
    {
      var flowHash := FlowHash(hasFilters, a);
      if flowHash.None? {
        log := log + [UnclassifiedDrop(a.size)];
        return false, 0, 0, classes, None;
      }
      i, h, placed, fat := Admit(flowHash.value, a.size, a.childAccepts);
      accepted := true;
    }

    /** The front of the new-flows deque becomes OLD_FLOW with deficit d and moves to the tail
        of the old-flows deque. */
    method Demote(d: int)
      requires Valid() && newFlows != []
      modifies this`classes, this`newFlows, this`oldFlows
      ensures Valid() && old(newFlows)[0] < |classes|
      ensures classes == old(classes)[old(newFlows)[0] := old(classes)[old(newFlows)[0]].(status := OldFlow, deficit := d)]
      ensures newFlows == old(newFlows)[1..] && oldFlows == old(oldFlows) + [old(newFlows)[0]]
      ensures Sched(classes, newFlows, oldFlows) == Demoted(old(Sched(classes, newFlows, oldFlows)), d)
    {
      var i := newFlows[0];
      var f := classes[i].(status := OldFlow, deficit := d);
      ListsMatchNewToOld(classes, newFlows, oldFlows, d);
      IndexMatchUpdate(flowsIndices, classes, i, f);
      PositiveSizesUpdate(classes, i, f);
      classes := classes[i := f];
      oldFlows := oldFlows + [i];
      newFlows := newFlows[1..];
    }

    /** The front of the old-flows deque, found empty, becomes INACTIVE and leaves it. */
    method Retire()
      requires Valid() && oldFlows != [] && oldFlows[0] < |classes| && classes[oldFlows[0]].backlog == []
      modifies this`classes, this`oldFlows
      ensures Valid()
      ensures classes == old(classes)[old(oldFlows)[0] := old(classes)[old(oldFlows)[0]].(status := Inactive)]
      ensures oldFlows == old(oldFlows)[1..]
      ensures Sched(classes, newFlows, oldFlows) == Retired(old(Sched(classes, newFlows, oldFlows)))
    {
      var i := oldFlows[0];
      var f := classes[i].(status := Inactive);
      ListsMatchRetire(classes, newFlows, oldFlows);
      IndexMatchUpdate(flowsIndices, classes, i, f);
      PositiveSizesUpdate(classes, i, f);
      classes := classes[i := f];
      oldFlows := oldFlows[1..];
    }

    /** The child of active flow i gives up its head packet, whose size is charged to the
        flow's deficit. */
    method PopHead(i: nat) returns (size: nat)
      requires Valid() && i < |classes| && classes[i].backlog != []
      modifies this`classes
      ensures Valid() && size == old(classes)[i].backlog[0]
      ensures classes == old(classes)[i := old(classes)[i].(backlog := old(classes)[i].backlog[1..],
                                                           deficit := old(classes)[i].deficit - size)]
    {
      size := classes[i].backlog[0];
      var f := classes[i].(backlog := classes[i].backlog[1..], deficit := classes[i].deficit - size);
      ListsExclusive(classes, newFlows, oldFlows, i);
      ListsMatchBacklog(classes, newFlows, oldFlows, i, f.backlog);
      assert classes[i := classes[i].(backlog := f.backlog)][i := f] == classes[i := f];
      IndexMatchUpdate(flowsIndices, classes, i, f);
      PositiveSizesUpdate(classes, i, f);
      classes := classes[i := f];
    }

    /** The new-flows loop of DoDequeue on the disc's deques: found exactly when a front with
        a positive deficit remains. */
    method NewScan() returns (found: bool)
      requires Valid()
      modifies this`classes, this`newFlows, this`oldFlows
      ensures Valid() && SameBacklogs(classes, old(classes))
      ensures found <==> newFlows != []
      ensures found ==> classes[newFlows[0]].deficit > 0
      ensures Sched(classes, newFlows, oldFlows) == NewScanOf(Sched(old(classes), old(newFlows), old(oldFlows)), quantum)
    {
      var s0 := Sched(classes, newFlows, oldFlows);
      var r := ScanNewFlows(s0, quantum);
      NewScanKeeps(s0, quantum);
      NewScanSame(s0, quantum);
      Restored(flowsIndices, classes, r.classes);
      classes, newFlows, oldFlows := r.classes, r.newFlows, r.oldFlows;
      found := newFlows != [];
    }

    /** The old-flows loop of DoDequeue on the disc's deques, entered with no new flow: found
        exactly when a front with a positive deficit remains. */
    method OldScan() returns (found: bool)
      requires Valid() && quantum > 0 && newFlows == []
      modifies this`classes, this`oldFlows
      ensures Valid() && SameBacklogs(classes, old(classes))
      ensures found <==> oldFlows != []
      ensures found ==> classes[oldFlows[0]].deficit > 0
      ensures Sched(classes, newFlows, oldFlows) == OldScanOf(Sched(old(classes), old(newFlows), old(oldFlows)), quantum)
    {
      var s0 := Sched(classes, newFlows, oldFlows);
      var r := ScanOldFlows(s0, quantum);
      OldScanKeeps(s0, quantum);
      OldScanSame(s0, quantum);
      Restored(flowsIndices, classes, r.classes);
      classes, oldFlows := r.classes, r.oldFlows;
      found := oldFlows != [];
    }

    /** The child dequeue of DoDequeue on the selected flow i, the front of the new-flows
        deque or, when that is empty, of the old-flows deque.  A packet is taken from the head
        and its size charged to the deficit; an empty flow leaves its deque: a new flow for
        the tail of the old-flows deque, an old flow to become INACTIVE. */
    method Serve(i: nat) returns (item: Option<nat>)
      requires Valid() && i < |classes|
      requires (newFlows != [] && newFlows[0] == i) || (newFlows == [] && oldFlows != [] && oldFlows[0] == i)
      modifies this`classes, this`newFlows, this`oldFlows
      ensures Valid() && |classes| == |old(classes)|
      ensures item.None? <==> old(classes)[i].backlog == []
      ensures item.Some? ==>
                && item.value == old(classes)[i].backlog[0]
                && classes == old(classes)[i := old(classes)[i].(backlog := old(classes)[i].backlog[1..],
                                                                 deficit := old(classes)[i].deficit - item.value)]
                && newFlows == old(newFlows) && oldFlows == old(oldFlows)
      ensures item.None? ==>
                && (forall j :: 0 <= j < |classes| ==> classes[j].backlog == old(classes)[j].backlog)
                && (|newFlows| < |old(newFlows)| || (newFlows == old(newFlows) && |oldFlows| < |old(oldFlows)|))
      ensures item.None? && old(newFlows) != [] ==>
                && classes == old(classes)[i := old(classes)[i].(status := OldFlow)]
                && newFlows == old(newFlows)[1..] && oldFlows == old(oldFlows) + [i]
      ensures item.None? && old(newFlows) == [] ==>
                && classes == old(classes)[i := old(classes)[i].(status := Inactive)]
                && newFlows == old(newFlows) && oldFlows == old(oldFlows)[1..]
      ensures (item, Sched(classes, newFlows, oldFlows)) == ServeOf(Sched(old(classes), old(newFlows), old(oldFlows)), i)
    {
      if classes[i].backlog == [] {
        if newFlows != [] {
          Demote(classes[i].deficit);
        } else {
          Retire();
        }
        item := None;
      } else {
        var size := PopHead(i);
        item := Some(size);
      }
    }

    /** One pass of the do-while body of DoDequeue: select a flow with the two loops and
        serve it.  Done with a packet, done with None when no flow is active, or not done
        when the selected flow was empty and has left its deque. */
    method Round() returns (item: Option<nat>, done: bool, i: nat)
      requires Valid() && quantum > 0
      modifies this`classes, this`newFlows, this`oldFlows
      ensures Valid()
      ensures Pass(item, done, i, Sched(classes, newFlows, oldFlows)) ==
                RoundOf(Sched(old(classes), old(newFlows), old(oldFlows)), quantum)
    {
      i := 0;
      var found := NewScan();
      if found {
        i := newFlows[0];
      } else {
        found := OldScan();
        if !found {
          return None, true, 0;
        }
        i := oldFlows[0];
      }
      item := Serve(i);
      done := item.Some?;
    }

    /** DoDequeue: the deficit round robin of section 4.2 of RFC 8290.  None exactly when the
        disc holds no packet; otherwise the head packet of the served flow, which is the front
        of the new-flows deque, or of the old-flows deque when no new flow remains, and had a
        positive deficit before being charged the packet's size. */
    method DoDequeue() returns (item: Option<nat>, ghost served: nat)
      requires Valid() && quantum > 0
      modifies this`classes, this`newFlows, this`oldFlows
      ensures Valid() && |classes| == |old(classes)|
      ensures item.None? <==> TotalPackets(old(classes)) == 0
      ensures item.None? ==> SameBacklogs(classes, old(classes)) && newFlows == [] && oldFlows == []
      ensures item.Some? ==> Served(old(classes), item.value, served, Sched(classes, newFlows, oldFlows))
      ensures item.Some? ==> TotalPackets(classes) + 1 == TotalPackets(old(classes))
                             && TotalBytes(classes) + item.value == TotalBytes(old(classes))
      ensures (item, served, Sched(classes, newFlows, oldFlows)) ==
                DequeueOf(Sched(old(classes), old(newFlows), old(oldFlows)), quantum)
    {
      ghost var s0 := Sched(classes, newFlows, oldFlows);
      DequeueFacts(s0, quantum);
      served := 0;
      while true
        invariant Valid()
        invariant DequeueOf(Sched(classes, newFlows, oldFlows), quantum) == DequeueOf(s0, quantum)
        decreases |newFlows|, |oldFlows|
      {
        ghost var t := Sched(classes, newFlows, oldFlows);
        var done, i;
        item, done, i := Round();
        served := i;
        if done {
          assert DequeueOf(t, quantum) == (item, served, Sched(classes, newFlows, oldFlows));
          if item.Some? {
            ServedMoves(s0.classes, item.value, served, Sched(classes, newFlows, oldFlows));
          }
          return;
        }
      }
    }

    /** CheckConfig: no classes or internal queues may be configured; a missing quantum is
        taken from the device's MTU (None when the disc is attached to no device), and must
        then be positive; with set-associative hashing the buckets must be a whole number of
        sets; L4S mode without a CE threshold aborts. */
    method CheckConfig(nInternalQueues: nat, deviceMtu: Option<nat>, useL4s: bool, ceThresholdSet: bool)
        returns (r: ConfigVerdict)
      requires Valid()
      modifies this`quantum
      ensures var shapeOk := |classes| == 0 && nInternalQueues == 0;
              var q := if shapeOk && old(quantum) == 0 && deviceMtu.Some? then deviceMtu.value else old(quantum);
              && quantum == q
              && (r == Accepted <==>
                    shapeOk && q > 0 && !(enableSetAssociativeHash && flows % setWays != 0) && !(useL4s && !ceThresholdSet))
              && (r == Aborted <==>
                    shapeOk && q > 0 && !(enableSetAssociativeHash && flows % setWays != 0) && useL4s && !ceThresholdSet)
      ensures r == Accepted ==> quantum > 0
    {
      if |classes| > 0 {
        return Refused;
      }
      if nInternalQueues > 0 {
        return Refused;
      }
      if quantum == 0 {
        if deviceMtu.Some? {
          quantum := deviceMtu.value;
        }
        if quantum == 0 {
          return Refused;
        }
      }
      if enableSetAssociativeHash && flows % setWays != 0 {
        return Refused;
      }
      if useL4s && !ceThresholdSet {
        return Aborted;
      }
      return Accepted;
    }
  }
}
