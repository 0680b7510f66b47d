/** The WFQ queue disc: a strict-priority multi-band disc.  Each packet goes to the band its
    packet filter names, or, without a filter match, to the band its priority maps to; the
    dequeue always serves the lowest-numbered band holding a packet.  The bands are child
    FIFO queue discs, modelled as FIFOs of packet sizes. */
module Wfq {
  import opened Common
  import opened WfqMap

  /** The packet-filter verdict for "no filter matched" (PF_NO_MATCH). */
  const PfNoMatch: int := -1

  /** The default priority-to-band map. */
  function DefaultMap(): (m: seq<Band>)
    ensures |m| == MapSize
    ensures forall k :: 0 <= k < |m| ==> m[k] <= 2
    ensures m[0] == 1 && m[1] == 2 && m[6] == 0
  {
    [1, 2, 2, 2, 1, 2, 0, 0, 1, 1, 1, 1, 1, 1, 1, 1]
  }

  /** The band of a packet: a filter verdict naming an existing band selects it; with no
      filter match the packet's priority tag, reduced to its low four bits, indexes the map;
      otherwise (no tag, or a verdict naming no band) the band of priority 0. */
  function SelectBand(prio2band: seq<Band>, nClasses: nat, filterResult: int, priorityTag: Option<bv8>): (band: nat)
    requires |prio2band| == MapSize
    ensures filterResult != PfNoMatch && 0 <= filterResult < nClasses ==> band == filterResult
    ensures filterResult == PfNoMatch && priorityTag.Some? ==>
              band == prio2band[(priorityTag.value & 0x0F) as int]
    ensures ((filterResult == PfNoMatch && priorityTag.None?)
             || (filterResult != PfNoMatch && !(0 <= filterResult < nClasses))) ==> band == prio2band[0]
  {
    if filterResult == PfNoMatch then
      match priorityTag
      case Some(p) => prio2band[(p & 0x0F) as int]
      case None => prio2band[0]
    else if 0 <= filterResult < nClasses then filterResult
    else prio2band[0]
  }

  /** A map naming only existing bands sends every packet to an existing band. */
  lemma SelectBandInRange(prio2band: seq<Band>, nClasses: nat, filterResult: int, priorityTag: Option<bv8>)
    requires |prio2band| == MapSize && forall k :: 0 <= k < MapSize ==> prio2band[k] < nClasses
    ensures SelectBand(prio2band, nClasses, filterResult, priorityTag) < nClasses
  {
    if filterResult == PfNoMatch && priorityTag.Some? {
      var k := (priorityTag.value & 0x0F) as int;
      assert 0 <= k < MapSize;
    }
  }

  /** The number of child FIFOs CheckConfig creates when none are configured, as written:
      its loop runs twice. */
  function ChildrenAsWritten(): (n: nat)
    ensures n < MapSize
  {
    2
  }

  /** The default map together with the children created as written: a packet tagged with
      priority 1 is sent to band 2, which does not exist. */
  lemma DefaultMapOverflowsAsWritten()
    ensures SelectBand(DefaultMap(), ChildrenAsWritten(), PfNoMatch, Some(1)) == 2
    ensures SelectBand(DefaultMap(), ChildrenAsWritten(), PfNoMatch, Some(1)) >= ChildrenAsWritten()
  {
    assert (1 as bv8 & 0x0F) as int == 1;
  }

  /** The number of child FIFOs CheckConfig creates when none are configured: three, one per
      band the default map names. */
  function ChildrenCreated(): (n: nat)
    ensures n < MapSize
  {
    3
  }

  /** With the children CheckConfig creates, the default map sends every packet, whatever its
      filter verdict and priority, to an existing band. */
  lemma DefaultMapFits(filterResult: int, priorityTag: Option<bv8>)
    ensures SelectBand(DefaultMap(), ChildrenCreated(), filterResult, priorityTag) < ChildrenCreated()
  {
    SelectBandInRange(DefaultMap(), ChildrenCreated(), filterResult, priorityTag);
  }

  /** The lowest-numbered band holding a packet, if any. */
  function Lowest(bands: seq<seq<nat>>): (r: Option<nat>)
    ensures r.Some? ==> r.value < |bands|
  {
    if bands == [] then None
    else if bands[0] != [] then Some(0)
    else match Lowest(bands[1..])
      case None => None
      case Some(i) => Some(i + 1)
  }

  /** Lowest names the first non-empty band, and is None exactly when every band is empty. */
  lemma {:induction false} LowestIsFirst(bands: seq<seq<nat>>)
    ensures Lowest(bands).None? <==> forall j :: 0 <= j < |bands| ==> bands[j] == []
    ensures Lowest(bands).Some? ==>
              && Lowest(bands).value < |bands| && bands[Lowest(bands).value] != []
              && forall j :: 0 <= j < Lowest(bands).value ==> bands[j] == []
  {
    if bands != [] && bands[0] == [] {
      LowestIsFirst(bands[1..]);
      assert forall j :: 1 <= j < |bands| ==> bands[j] == bands[1..][j - 1];
    }
  }

  class WfqQueueDisc {
    /** m_prio2band: the band of each of the sixteen priorities. */
    var prio2band: array<Band>
    /** The child queue discs, by band: each a FIFO of packet sizes. */
    var bands: seq<seq<nat>>

    predicate Valid()
      reads this
    {
      prio2band.Length == MapSize
    }

    /** A disc with the default map and no children yet. */
    constructor()
      ensures Valid() && fresh(prio2band) && prio2band[..] == DefaultMap() && bands == []
    {
      var m := new Band[MapSize];
      m[0], m[1], m[2], m[3], m[4], m[5], m[6], m[7] := 1, 2, 2, 2, 1, 2, 0, 0;
      m[8], m[9], m[10], m[11], m[12], m[13], m[14], m[15] := 1, 1, 1, 1, 1, 1, 1, 1;
      prio2band := m;
      bands := [];
    }

    /** SetBandForWFQrity: the band of one priority (below 16) changes, no other entry does. */
    method SetBandForWFQrity(prio: nat, band: Band)
      requires Valid() && prio < MapSize
      modifies prio2band
      ensures Valid()
      ensures prio2band[..] == old(prio2band[..])[prio := band]
    {
      prio2band[prio] := band;
    }

    /** GetBandForWFQrity: the band of a priority below 16. */
    method GetBandForWFQrity(prio: nat) returns (band: Band)
      requires Valid() && prio < MapSize
      ensures band == prio2band[prio]
    {
      band := prio2band[prio];
    }

    /** DoEnqueue: the packet goes to its selected band, which must exist; the verdict is the
        child's own, and a refused packet changes nothing here. */
    method DoEnqueue(filterResult: int, priorityTag: Option<bv8>, size: nat, childAccepts: bool)
        returns (accepted: bool)
      requires Valid() && SelectBand(prio2band[..], |bands|, filterResult, priorityTag) < |bands|
      modifies this`bands
      ensures var b := SelectBand(prio2band[..], |old(bands)|, filterResult, priorityTag);
              && accepted == childAccepts
              && bands == (if childAccepts then old(bands)[b := old(bands)[b] + [size]] else old(bands))
    {
      var band := SelectBand(prio2band[..], |bands|, filterResult, priorityTag);
      if childAccepts {
        bands := bands[band := bands[band] + [size]];
      }
      accepted := childAccepts;
    }

    /** DoDequeue: the head packet of the lowest-numbered non-empty band, which alone loses
        it; None, changing nothing, when every band is empty. */
    method DoDequeue() returns (item: Option<nat>)
      modifies this`bands
      ensures item.None? <==> Lowest(old(bands)).None?
      ensures item.None? ==> bands == old(bands)
      ensures item.Some? ==>
                var i := Lowest(old(bands)).value;
                && i < |old(bands)| && old(bands)[i] != [] && item.value == old(bands)[i][0]
                && bands == old(bands)[i := old(bands)[i][1..]]
    {
      LowestIsFirst(bands);
      for i := 0 to |bands|
        invariant forall j :: 0 <= j < i ==> bands[j] == []
        invariant bands == old(bands)
      {
        if bands[i] != [] {
          LowestAt(bands, i);
          item := Some(bands[i][0]);
          bands := bands[i := bands[i][1..]];
          return;
        }
      }
      item := None;
    }

    /** DoPeek: the packet DoDequeue would return, from the same band, leaving every band as
        it is. */
    method DoPeek() returns (item: Option<nat>)
      ensures item.None? <==> forall j :: 0 <= j < |bands| ==> bands[j] == []
      ensures item.Some? ==> Lowest(bands).Some? && bands[Lowest(bands).value] != []
                             && item.value == bands[Lowest(bands).value][0]
    {
      LowestIsFirst(bands);
      for i := 0 to |bands|
        invariant forall j :: 0 <= j < i ==> bands[j] == []
      {
        if bands[i] != [] {
          LowestAt(bands, i);
          return Some(bands[i][0]);
        }
      }
      return None;
    }

    /** The configuration check with `created` standing for the number of FIFO children its
        loop adds to a disc without children: internal queues are refused, and fewer than two
        children are refused. */
    method Configure(nInternalQueues: nat, created: nat) returns (ok: bool)
      modifies this`bands
      ensures nInternalQueues == 0 && old(bands) == [] ==> bands == seq(created, _ => [])
      ensures !(nInternalQueues == 0 && old(bands) == []) ==> bands == old(bands)
      ensures ok <==> nInternalQueues == 0 && |bands| >= 2
      ensures ok ==> |bands| >= 2
    {
      if nInternalQueues > 0 {
        return false;
      }
      if |bands| == 0 {
        var i := 0;
        while i < created
          invariant 0 <= i <= created && bands == seq(i, _ => [])
        {
          bands := bands + [[]];
          i := i + 1;
        }
      }
      if |bands| < 2 {
        return false;
      }
      return true;
    }

    /** CheckConfig as written: a disc without children gets ChildrenAsWritten() (two) empty
        FIFO children. */
    method CheckConfig(nInternalQueues: nat) returns (ok: bool)
      modifies this`bands
      ensures nInternalQueues == 0 && old(bands) == [] ==> bands == seq(ChildrenAsWritten(), _ => [])
      ensures !(nInternalQueues == 0 && old(bands) == []) ==> bands == old(bands)
      ensures ok <==> nInternalQueues == 0 && (old(bands) == [] || |old(bands)| >= 2)
      ensures ok ==> |bands| >= 2
    {
      ok := Configure(nInternalQueues, ChildrenAsWritten());
    }

    /** CheckConfig as its comment intends: a disc without children gets ChildrenCreated()
        (three) empty FIFO children, one per band the default map names. */
    method CheckConfigIntended(nInternalQueues: nat) returns (ok: bool)
      modifies this`bands
      ensures nInternalQueues == 0 && old(bands) == [] ==> bands == seq(ChildrenCreated(), _ => [])
      ensures !(nInternalQueues == 0 && old(bands) == []) ==> bands == old(bands)
      ensures ok <==> nInternalQueues == 0 && (old(bands) == [] || |old(bands)| >= 2)
      ensures ok ==> |bands| >= 2
    {
      ok := Configure(nInternalQueues, ChildrenCreated());
    }
  }

  /** A default disc configured as written is accepted, yet an unclassified packet tagged with
      priority 1 selects a band it does not have: DoEnqueue's precondition (the assertion of
      the source) fails for it. */
  method DefaultConfiguredAsWritten() returns (d: WfqQueueDisc, ok: bool)
    ensures ok && d.Valid() && |d.bands| == ChildrenAsWritten()
    ensures SelectBand(d.prio2band[..], |d.bands|, PfNoMatch, Some(1)) >= |d.bands|
  {
    d := new WfqQueueDisc();
    ok := d.CheckConfig(0);
    DefaultMapOverflowsAsWritten();
  }

  /** A default disc configured as intended is accepted, and DoEnqueue's precondition then
      holds for every filter verdict and every priority tag. */
  method DefaultConfiguredIntended() returns (d: WfqQueueDisc, ok: bool)
    ensures ok && d.Valid() && |d.bands| == ChildrenCreated()
    ensures forall filterResult: int, priorityTag: Option<bv8> ::
              SelectBand(d.prio2band[..], |d.bands|, filterResult, priorityTag) < |d.bands|
  {
    d := new WfqQueueDisc();
    ok := d.CheckConfigIntended(0);
    forall filterResult: int, priorityTag: Option<bv8>
      ensures SelectBand(d.prio2band[..], |d.bands|, filterResult, priorityTag) < |d.bands|
    {
      DefaultMapFits(filterResult, priorityTag);
    }
  }

  /** The first empty-prefix band that holds a packet is the one Lowest names. */
  lemma {:induction false} LowestAt(bands: seq<seq<nat>>, i: nat)
    requires i < |bands| && bands[i] != [] && forall j :: 0 <= j < i ==> bands[j] == []
    ensures Lowest(bands) == Some(i)
  {
    if i > 0 {
      assert forall j :: 0 <= j < i - 1 ==> bands[1..][j] == bands[j + 1];
      LowestAt(bands[1..], i - 1);
    }
  }
}
