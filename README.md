# Three ns-3 queue discs, modelled and verified in Dafny

This project models three traffic-control queue discs of an ns-3 based simulator and proves
what their code promises.

- **BLACK** (`black_aqm.dfy`, `black_disc.dfy`) is a RED active queue management discipline.
  It combines:
  - Floyd and Jacobson's RED;
  - the Adaptive-RED AIMD rule for the maximum drop probability;
  - Feng's self-configuring MIMD rule;
  - gentle and nonlinear ramps;
  - derandomised ("wait") dropping;
  - byte-mode scaling;
  - ECN marking as in section 5 of RFC 3168.

  Module `BlackAqm` holds the arithmetic and the per-arrival decision as pure functions.
  Module `BlackDisc` holds the disc as a class. Its methods update the C++ member
  variables (grouped into a `params` and a `state` record), the internal DropTail FIFO and
  a ghost log of drop and mark events. Each method is proved equal to the pure definition
  it implements.
- **LLQ** (`llq.dfy`) is a flow scheduler.
  - Packets are hashed into buckets, optionally with a set-associative bucket finder, and
    each bucket gets a flow with its own child disc.
  - Flows are served by the new-flows/old-flows deficit round robin of section 4.2 of
    RFC 8290.
  - On overload, a batch is dropped from the fattest flow, as in section 4.1 of RFC 8290.

  The class keeps `m_flowsIndices`, `m_tags`, the two deques and the flows as fields. The
  deques hold class indices where the source holds pointers to flow objects. Those objects
  are never destroyed, so the two identify the same flow. Each child PIE disc is a FIFO of
  packet sizes whose enqueue may refuse.
- **WFQ** (`wfq_map.dfy`, `wfq.dfy`) is a strict-priority band classifier.
  - `WfqMap` holds the sixteen-entry priority-to-band map and its text form. It defines
    `operator<<` as a function and `operator>>` as a method that fills the array in place.
  - `Wfq` holds the band selection and the disc class. The class has the `m_prio2band`
    array and the child FIFOs, and implements the setter, the getter, enqueue, dequeue,
    peek and the configuration check.

Modelling conventions:
- `double` is idealised as `real`.
- Simulation time is an integer number of nanoseconds.
- The clock, the uniform draw, the ECN `Mark()` result, the packet filters' verdict, the
  packet hash and the children's accept/refuse verdicts are parameters.
- BLACK's byte mode (`byteMode`) stands for a MaxSize attribute counted in bytes, which is what
  the source tests.
- `common.dfy` holds `Option` and a sum over sequences.

Where the source's comments and its code disagree, the model follows the code. Each such
case is listed under Left out and, for WFQ's CheckConfig, under Findings.

## Model

| member | source | states |
|---|---|---|
| BlackAqm.EwmaBounded | model/black-queue-disc.cc:576-594 | with 0 <= qW <= 1, qAvg >= 0 and at least one sample, qAvg(1-qW)^m + qW nQueued lies in [0, max(qAvg, nQueued)] |
| BlackAqm.UpdateMaxP | model/black-queue-disc.cc:548-572 | the AIMD step either leaves curMaxP and lastSet unchanged or sets lastSet to now; its values are stated by UpdateMaxPDirection |
| BlackAqm.UpdateMaxPDirection | model/black-queue-disc.cc:553-571 | below minTh + 0.4 span with curMaxP > bottom the step gives (curMaxP beta, now); otherwise above maxTh - 0.4 span with curMaxP < top it gives (curMaxP + min(alpha, curMaxP / 4), now); otherwise (curMaxP, lastSet); conversely curMaxP falls only in the first case and rises only in the second, by at most alpha |
| BlackAqm.AimdStepBelow | model/black-queue-disc.cc:553-560 | below the band a curMaxP above bottom is multiplied by beta and any other is kept; it never grows or turns negative |
| BlackAqm.AimdStepStrict | model/black-queue-disc.cc:553-560 | below the band, with beta < 1, a step from above bottom strictly lowers curMaxP |
| BlackAqm.AimdBelowBand | model/black-queue-disc.cc:553-560 | with the average held below the band, any number of repeated steps keeps curMaxP between 0 and its starting value |
| BlackAqm.AimdStrictStep | model/black-queue-disc.cc:553-560 | with the average held below the band and beta < 1, each repeated step that starts above bottom strictly lowers curMaxP |
| BlackAqm.AimdGeometric | model/black-queue-disc.cc:553-560 | while every step starts above bottom, n steps below the band leave curMaxP times beta^n |
| BlackAqm.UpdateMaxPBounds | model/black-queue-disc.cc:553-571 | one AIMD step keeps curMaxP non-negative, at least min(curMaxP, beta bottom) and at most max(curMaxP, 1.25 top) |
| BlackAqm.UpdateMaxPFeng | model/black-queue-disc.cc:526-544 | an average below minTh from another status gives (Below, curMaxP / a), and from Below keeps curMaxP; above maxTh from another status gives (Above, curMaxP b), and from Above keeps curMaxP; strictly between the thresholds gives (Between, curMaxP); an average equal to a threshold changes nothing; conversely curMaxP changes only on entering Below or Above |
| BlackAqm.Estimator | model/black-queue-disc.cc:548-594 | the new average is the EWMA; only qAvg, curMaxP, lastSet and the Feng status change; under adaptive max_p after the interval, curMaxP and lastSet become those of UpdateMaxP and the Feng status is kept; otherwise under Feng's mode, the Feng status and curMaxP become those of UpdateMaxPFeng and lastSet is kept; otherwise only the average changes |
| BlackAqm.InitCoeffs | model/black-queue-disc.cc:453-466 | vA > 0; the linear ramp vA q + vB is 0 at minTh and 1 at maxTh; a zero span gives vA = 1 and vB = -minTh; the gentle ramp vC q + vD is the initial max_p at maxTh and 1 at 2 maxTh |
| BlackAqm.RampPRange | model/black-queue-disc.cc:686-693 | a ramp value in [0, 1] gives a non-negative probability, at most curMaxP in linear mode |
| BlackAqm.CalculatePNew | model/black-queue-disc.cc:660-702 | the base probability never exceeds 1 and is exactly 1 at or above maxTh in non-gentle mode |
| BlackAqm.CalculatePNewRamp | model/black-queue-disc.cc:681-698 | between the thresholds the base probability lies in [0, 1] and, in linear mode, at most curMaxP |
| BlackAqm.CalculatePNewGentle | model/black-queue-disc.cc:665-670 | in gentle mode above maxTh the base probability lies between min(initial max_p, 1) and 1, and is 1 from 2 maxTh on |
| BlackAqm.DerandomiseRange | model/black-queue-disc.cc:716-743 | derandomisation is non-negative; in wait mode it is 0 while c p < 1; it saturates at 1 from c p >= 2 (wait) or c p >= 1 (non-wait); once it acts it never lowers a probability |
| BlackAqm.ModifyP | model/black-queue-disc.cc:706-754 | the modified probability never exceeds 1 |
| BlackAqm.ModifyPRange | model/black-queue-disc.cc:706-754 | for p in [0, 1] the result is in [0, 1]; in wait mode it is 0 while count p < 1, with the byte-mode count being countBytes / meanPktSize (integer division); in packet mode it is at least p once derandomisation acts and exactly 1 at saturation |
| BlackAqm.EarlyDropSpec | model/black-queue-disc.cc:598-656 | DropEarly (cautious mode 0) drops exactly when u <= the new vProb, resets both counters exactly then, and changes nothing else |
| BlackAqm.ActReasons | model/black-queue-disc.cc:354-378 | no drop type logs no drop or mark and the packet is queued iff the DropTail queue takes it; a forced (unforced) drop type logs first a forced (unforced) drop or mark, then at most refusals by the DropTail queue; a dropped packet is not queued, a marked one is queued iff the DropTail queue takes it |
| BlackAqm.EnqueueSpec | model/black-queue-disc.cc:285-389 | see the detail below the table |
| BlackDisc.DefaultSettings | model/black-queue-disc.cc:19-169 | the attribute defaults satisfy what the arithmetic needs: positive mean size, ordered thresholds with maxTh >= 2 minTh, non-zero divisors, parameters in [0, 1] |
| BlackDisc.AutoThresholds | model/black-queue-disc.cc:423-443 | automatic minTh = max(5, targetQueue / 2), scaled by the mean size in byte mode, and maxTh = 3 minTh |
| BlackDisc.CheckConfig | model/black-queue-disc.cc:802-837 | accepted iff there are no classes, no filters and at most one internal queue; a DropTail queue is added when there is none; the mode conflict is only reported |
| BlackDisc.ThresholdsSpec | model/black-queue-disc.cc:406-443 | the automatic thresholds are chosen exactly under adaptive BLACK or when both thresholds are zero; adaptive BLACK turns max_p adaptation on and clears the weight; nothing else changes |
| BlackDisc.ThresholdsOrdered | model/black-queue-disc.cc:423-445 | the thresholds left by the first blocks of InitializeParams are ordered with a positive maxTh, so the assertion at line 445 holds |
| BlackDisc.InitializedSpec | model/black-queue-disc.cc:398-520 | after InitializeParams the configuration is well formed, the thresholds, weight, bottom and adaptation flag are set as the code decides, and no other attribute changes |
| BlackDisc.Attributes | model/black-queue-disc.h:204-230 | the configuration record carries the user-supplied attributes unchanged, with zero coefficients |
| BlackDisc.BlackQueueDisc.constructor | model/black-queue-disc.cc:171-176 | a fresh disc: the given attributes, zeroed maintained variables, idle, empty queue and log |
| BlackDisc.BlackQueueDisc.SetTh | model/black-queue-disc.cc:268-274 | requires minTh <= maxTh, as the source asserts; only the two thresholds change |
| BlackDisc.BlackQueueDisc.InitializeModes | model/black-queue-disc.cc:406-421 | the parameters become WithModes of the old ones; Feng's status starts at Above when Feng mode is on |
| BlackDisc.BlackQueueDisc.InitializeThresholds | model/black-queue-disc.cc:423-443 | the parameters become WithThresholds of the old ones |
| BlackDisc.BlackQueueDisc.InitializeCoefficients | model/black-queue-disc.cc:447-467 | the coefficients are those of InitCoeffs for max_p = 1 / lInterm; the history resets to idle with curMaxP = 1 / lInterm |
| BlackDisc.BlackQueueDisc.InitializeWeights | model/black-queue-disc.cc:482-512 | the sentinel weights take the default one and a zero bottom is replaced |
| BlackDisc.BlackQueueDisc.InitializeParams | model/black-queue-disc.cc:398-520 | the parameters become Initialized(...) and the state InitialState(...); the disc is then Valid |
| BlackDisc.BlackQueueDisc.UpdateMaxPFeng | model/black-queue-disc.cc:526-544 | the Feng status and curMaxP become those of BlackAqm.UpdateMaxPFeng; nothing else changes |
| BlackDisc.BlackQueueDisc.UpdateMaxP | model/black-queue-disc.cc:548-572 | curMaxP and lastSet become those of BlackAqm.UpdateMaxP; nothing else changes |
| BlackDisc.BlackQueueDisc.Estimator | model/black-queue-disc.cc:576-594 | returns the EWMA without storing it; the adaptation follows BlackAqm.Estimator |
| BlackDisc.BlackQueueDisc.DropEarly | model/black-queue-disc.cc:598-656 | returns 0 or 1, and 1 exactly as EarlyDrop decides; vProb and the counters change as EarlyDrop says |
| BlackDisc.BlackQueueDisc.Arrive | model/black-queue-disc.cc:289-319 | returns the occupancy seen on arrival; the state becomes BlackAqm.Arrive of the old one |
| BlackDisc.BlackQueueDisc.Classify | model/black-queue-disc.cc:321-352 | the drop type and state are those of BlackAqm.Classify |
| BlackDisc.BlackQueueDisc.Act | model/black-queue-disc.cc:354-388 | state, queue, log and verdict are those of BlackAqm.Act |
| BlackDisc.BlackQueueDisc.DoEnqueue | model/black-queue-disc.cc:285-389 | state, queue, log and verdict are exactly those of the pure Enqueue, whose properties EnqueueSpec proves |
| BlackDisc.BlackQueueDisc.DoDequeue | model/black-queue-disc.cc:757-781 | an empty queue returns None and starts an idle period at now; otherwise the head leaves and idleness ends |
| BlackDisc.BlackQueueDisc.DoPeek | model/black-queue-disc.cc:784-799 | None iff the queue is empty, else its head; nothing changes |
| Llq.ListsExclusive | model/llq-queue-disc.cc:325-330 | under the deque invariant a flow is in the new-flows deque iff NEW_FLOW, in the old-flows deque iff OLD_FLOW, and never in both |
| Llq.EmptyListsNoPackets | model/llq-queue-disc.cc:394-398 | with both deques empty no flow holds a packet, so the null return loses nothing |
| Llq.ListsMatchCreate | model/llq-queue-disc.cc:299-318 | a new flow is INACTIVE and empty, and the deque invariant still holds |
| Llq.ListsMatchActivate | model/llq-queue-disc.cc:325-330 | an INACTIVE flow becoming NEW_FLOW at the tail of the new-flows deque keeps the invariant |
| Llq.ListsMatchNewToOld | model/llq-queue-disc.cc:361-368 | the new-flows front becoming OLD_FLOW at the old-flows tail keeps the invariant |
| Llq.ListsMatchRotate | model/llq-queue-disc.cc:380-386 | the old-flows front moving to the tail with more deficit keeps the invariant |
| Llq.ListsMatchRetire | model/llq-queue-disc.cc:411-415 | an empty old-flows front becoming INACTIVE and leaving keeps the invariant |
| Llq.IndexMatchCreate | model/llq-queue-disc.cc:300-318 | recording a new flow's class index under its bucket keeps the bucket/class bijection |
| Llq.NeedDecreases | model/llq-queue-disc.cc:376-392 | giving an OLD_FLOW with deficit <= 0 a positive quantum lowers the measure that bounds the old-flows scan, so the scan ends |
| Llq.SetWithinFlows | model/llq-queue-disc.cc:237-241 | when the bucket count is a multiple of the set size, the searched set lies inside the buckets (the check at line 464) |
| Llq.FlowHash | model/llq-queue-disc.cc:270-288 | without filters the flow hash is the packet's hash; with filters it is the verdict, and there is none (unclassified drop) exactly when no filter matched |
| Llq.DropCount | model/llq-queue-disc.cc:527-540 | the do-while drop loop removes at least one packet; it stops once the batch size is reached or the dropped bytes reach half the backlog (rounded down), and not before |
| Llq.LlqQueueDisc.constructor | model/llq-queue-disc.cc:143-212 | the attribute defaults: 1024 buckets, sets of 8, no set-associative hashing, quantum 0, batches of 64, a 10240-packet limit; empty maps and deques |
| Llq.JoinKeeps | model/llq-queue-disc.cc:325-332 | an arrival at a class (activation of an INACTIVE flow at the new-flows tail, then the child's verdict) keeps the bucket/class bijection, the deque invariant and the positive packet sizes |
| Llq.JoinTotals | model/llq-queue-disc.cc:332 | the packet and byte totals grow by the packet exactly when the child accepts it |
| Llq.NewScanOf | model/llq-queue-disc.cc:357-374 | the new-flows loop ends with an empty deque or a front of positive deficit; it never lengthens the deque, and a loop that moves nothing changes nothing |
| Llq.OldScanOf | model/llq-queue-disc.cc:376-392 | with a positive quantum the old-flows loop ends, with an empty deque or a front of positive deficit; the new-flows deque and the old-flows length are kept |
| Llq.NewScanKeeps | model/llq-queue-disc.cc:357-374 | the new-flows loop keeps the deque invariant |
| Llq.NewScanSame | model/llq-queue-disc.cc:357-374 | the new-flows loop keeps every flow's FIFO and bucket |
| Llq.OldScanKeeps | model/llq-queue-disc.cc:376-392 | the old-flows loop keeps the deque invariant |
| Llq.OldScanSame | model/llq-queue-disc.cc:376-392 | the old-flows loop keeps every flow's FIFO and bucket |
| Llq.NewScanDeques | model/llq-queue-disc.cc:357-374 | the new-flows loop moves the first k flows of the new-flows deque, in order, to the tail of the old-flows deque |
| Llq.NewScanSkips | model/llq-queue-disc.cc:357-368 | none of the k flows moved had a positive deficit |
| Llq.NewScanClasses | model/llq-queue-disc.cc:361-368 | exactly the k flows moved become OLD_FLOW with one quantum more deficit; every other flow is unchanged |
| Llq.NewScanExact | model/llq-queue-disc.cc:357-374 | the new-flows loop does exactly that: a prefix of non-positive-deficit flows moved in order, promoted, nothing else changed |
| Llq.OldScanRotation | model/llq-queue-disc.cc:376-392 | the old-flows loop leaves the old-flows deque rotated by some number of places |
| Llq.OldScanClasses | model/llq-queue-disc.cc:380-386 | the old-flows loop changes only deficits and never lowers one; flows with a positive deficit or outside the deque are unchanged |
| Llq.OldScanExact | model/llq-queue-disc.cc:376-392 | the old-flows loop does exactly that: a rotation of the deque, the new-flows deque untouched, deficits only raised and only for non-positive flows in the deque |
| Llq.ScanNewFlows | model/llq-queue-disc.cc:357-374 | the while loop on local copies computes NewScanOf |
| Llq.ScanOldFlows | model/llq-queue-disc.cc:376-392 | the while loop on local copies computes OldScanOf and terminates for a positive quantum |
| Llq.ServeOf | model/llq-queue-disc.cc:400-423 | the child dequeue keeps the deque invariant; with an empty FIFO no FIFO changes and the served flow leaves its deque, so one deque gets shorter |
| Llq.RoundOf | model/llq-queue-disc.cc:353-423 | one pass keeps the deque invariant; a packet ends the loop; a pass that does not end it shortens the new-flows deque, or keeps it and shortens the old-flows deque |
| Llq.ServeFacts | model/llq-queue-disc.cc:400-423 | serving the selected front of positive deficit either moves no packet or serves exactly its head packet, leaving the flow at its deque's front |
| Llq.RoundFacts | model/llq-queue-disc.cc:353-423 | one pass serves the head packet of the flow it selects, or moves no packet; it ends without a packet only with both deques empty, and then the disc holds no packet |
| Llq.DequeueFacts | model/llq-queue-disc.cc:346-426 | the whole loop returns None exactly when the disc holds no packet, and then moves none and empties both deques; otherwise it serves the head packet of the front flow, which had a positive deficit |
| Llq.ServedMoves | model/llq-queue-disc.cc:400-423 | serving a head packet lowers the packet total by one and the byte total by its size |
| Llq.LlqQueueDisc.SetAssociativeHash | model/llq-queue-disc.cc:233-260 | returns the lowest bucket of the set [o, o + setWays) that is uncreated, tagged with this hash or INACTIVE, else o; that bucket is tagged with the hash; with m_flows a multiple of setWays the bucket is below m_flows |
| Llq.LlqQueueDisc.FlowFor | model/llq-queue-disc.cc:299-323 | the class of a bucket: the existing one with nothing changed, or exactly one new empty INACTIVE flow, added last and recorded under the bucket; the totals are kept |
| Llq.LlqQueueDisc.FatFlow | model/llq-queue-disc.cc:510-524 | returns the first class with the strictly largest byte backlog, and that backlog |
| Llq.LlqQueueDisc.LLQDrop | model/llq-queue-disc.cc:506-543 | only the fat flow changes; its FIFO loses the head batch that DropCount describes; each dropped packet is logged as an overlimit drop |
| Llq.LlqQueueDisc.Overload | model/llq-queue-disc.cc:336-340 | the rule fires iff the size exceeds the limit; then the fat flow (ghost result) loses the batch BatchEnds describes from its head, each dropped packet logged, and nothing else changes; otherwise nothing changes; packets are conserved |
| Llq.LlqQueueDisc.Locate | model/llq-queue-disc.cc:290-323 | the bucket is hash mod m_flows, or the set-associative choice, which alone is tagged with the hash; its class is the bucket's existing one with nothing changed, or a new empty INACTIVE flow added last and recorded under the bucket |
| Llq.LlqQueueDisc.Place | model/llq-queue-disc.cc:325-332 | the class becomes Joined (NEW_FLOW with a quantum when INACTIVE, then the packet at its tail iff the child accepts); it joins the new-flows tail iff it was INACTIVE; no other class changes; the size moves by the packet iff accepted |
| Llq.LlqQueueDisc.Settle | model/llq-queue-disc.cc:290-332 | Locate then Place: the bucket choice, the tags, and Joins (the class located, joined, and appended to the new-flows deque iff it was INACTIVE) |
| Llq.LlqQueueDisc.Admit | model/llq-queue-disc.cc:290-340 | Settle, then the overload rule: drops happen iff the size after the arrival exceeds the limit, and then only from the fat flow of the table after the arrival |
| Llq.LlqQueueDisc.DoEnqueue | model/llq-queue-disc.cc:263-343 | false iff filters are installed and none matched (logged as unclassified, nothing else changes); otherwise true whatever the child's verdict, with the bucket choice, Joins and Trimmed of Admit; every arrival is queued or logged, except one its child refuses |
| Llq.LlqQueueDisc.Demote | model/llq-queue-disc.cc:361-368 | the new-flows front becomes OLD_FLOW with the given deficit at the old-flows tail (also the empty-flow branch at lines 405-409) |
| Llq.LlqQueueDisc.Retire | model/llq-queue-disc.cc:411-415 | the empty old-flows front becomes INACTIVE and leaves the deque |
| Llq.LlqQueueDisc.PopHead | model/llq-queue-disc.cc:400-423 | the flow's head packet leaves and its size is charged to the deficit; nothing else changes |
| Llq.LlqQueueDisc.NewScan | model/llq-queue-disc.cc:357-374 | the disc's state becomes NewScanOf of the old one (so NewScanExact applies); every FIFO is kept; found iff a new-flows front remains, whose deficit is positive |
| Llq.LlqQueueDisc.OldScan | model/llq-queue-disc.cc:376-392 | the disc's state becomes OldScanOf of the old one (so OldScanExact applies); every FIFO is kept; found iff an old-flows front remains, whose deficit is positive |
| Llq.LlqQueueDisc.Serve | model/llq-queue-disc.cc:400-423 | None iff the flow's FIFO was empty; then no FIFO changes and the flow leaves its deque: to the old-flows tail as OLD_FLOW while new flows remain, else INACTIVE; otherwise its head packet, charged to its deficit, with both deques kept; the state is ServeOf of the old one |
| Llq.LlqQueueDisc.Round | model/llq-queue-disc.cc:353-423 | the packet, loop exit, flow selected and new state are RoundOf of the old state (whose facts RoundFacts proves) |
| Llq.LlqQueueDisc.DoDequeue | model/llq-queue-disc.cc:346-426 | None iff the disc holds no packet, and then every FIFO is kept and both deques end empty; otherwise the head packet of the served flow's FIFO, that flow being the front of the new-flows deque or, with none, of the old-flows deque, with a positive deficit before the charge; only that FIFO changes, losing the packet; both totals drop by that one packet; the result is DequeueOf of the old state |
| Llq.LlqQueueDisc.CheckConfig | model/llq-queue-disc.cc:429-481 | refused with classes or internal queues, when the quantum stays 0 (no device MTU) or when m_flows is not a multiple of setWays under set-associative hashing; aborted in L4S mode without a CE threshold; accepted otherwise, and then the quantum is positive |
| WfqMap.Decimal | model/wfq-queue-disc.cc:23-24 | the decimal text of a band is a non-empty run of digits |
| WfqMap.DecimalValue | model/wfq-queue-disc.cc:23-24 | the digits written for a band read back as that band |
| WfqMap.Serialize | model/wfq-queue-disc.cc:20-26 | operator<< writes digits at both ends, with no leading or trailing separator |
| WfqMap.ReadBandDecimal | model/wfq-queue-disc.cc:33 | one uint16 read after whitespace returns the band written in decimal and stops at the next separator |
| WfqMap.ParseJoinPrefix | model/wfq-queue-disc.cc:31-38 | n reads of a written map return its first n entries |
| WfqMap.ParseSerialize | model/wfq-queue-disc.cc:20-40 | reading back what operator<< writes gives the same 16 entries and consumes the whole text |
| WfqMap.ParseTooFew | model/wfq-queue-disc.cc:31-37 | a text with fewer than 16 values is refused (the fatal error) |
| WfqMap.ParseBandsFailed | model/wfq-queue-disc.cc:33-36 | once a read fails, the whole parse fails |
| WfqMap.ReadMap | model/wfq-queue-disc.cc:28-40 | operator>> in place: it succeeds iff the text parses; on success the array holds the 16 values read and the rest is the unread text |
| Wfq.DefaultMap | model/wfq-queue-disc.cc:52 | the default map has 16 entries, all naming bands 0, 1 or 2 |
| Wfq.SelectBand | model/wfq-queue-disc.cc:94-116 | a filter verdict in [0, nClasses) selects that band; with no match a tagged packet goes to prio2band[priority & 0x0f]; otherwise prio2band[0] |
| Wfq.SelectBandInRange | model/wfq-queue-disc.cc:94-118 | a map naming only existing bands always selects an existing band, so the assertion at line 118 holds |
| Wfq.ChildrenAsWritten | model/wfq-queue-disc.cc:189 | the loop as written creates 2 children |
| Wfq.DefaultMapOverflowsAsWritten | model/wfq-queue-disc.cc:186-189 | with the default map of line 52 and the 2 children created as written, a packet tagged with priority 1 selects band 2, which does not exist |
| Wfq.ChildrenCreated | model/wfq-queue-disc.cc:186 | three children, as the comment announces |
| Wfq.DefaultMapFits | model/wfq-queue-disc.cc:94-118 | with three children the default map sends every packet to an existing band |
| Wfq.LowestIsFirst | model/wfq-queue-disc.cc:137-149 | the band served is the first non-empty one; there is none iff every band is empty |
| Wfq.LowestAt | model/wfq-queue-disc.cc:137-145 | a non-empty band preceded only by empty ones is the band served |
| Wfq.WfqQueueDisc.constructor | model/wfq-queue-disc.cc:52-62 | a fresh disc with the default map and no children |
| Wfq.WfqQueueDisc.SetBandForWFQrity | model/wfq-queue-disc.cc:70-77 | requires prio < 16 as the source asserts; that entry becomes band and no other entry changes |
| Wfq.WfqQueueDisc.GetBandForWFQrity | model/wfq-queue-disc.cc:80-87 | requires prio < 16; returns that entry |
| Wfq.WfqQueueDisc.DoEnqueue | model/wfq-queue-disc.cc:90-128 | requires the selected band to exist, as the source asserts; the packet joins that band iff the child accepts, and the verdict is the child's |
| Wfq.WfqQueueDisc.DoDequeue | model/wfq-queue-disc.cc:131-150 | None iff every band is empty, changing nothing; otherwise the head of the lowest non-empty band, which alone loses it |
| Wfq.WfqQueueDisc.DoPeek | model/wfq-queue-disc.cc:153-172 | None iff every band is empty; otherwise the head of the band DoDequeue would serve; nothing changes |
| Wfq.WfqQueueDisc.Configure | model/wfq-queue-disc.cc:175-206 | internal queues are refused and nothing changes; otherwise a disc without children gets the given number of empty FIFOs; accepted iff there are no internal queues and the disc then has at least 2 children |
| Wfq.WfqQueueDisc.CheckConfig | model/wfq-queue-disc.cc:175-206 | as written: internal queues are refused and nothing changes; otherwise a disc without children gets ChildrenAsWritten() (two) empty FIFOs; accepted iff there are no internal queues and the disc had no children or at least 2; an accepted disc has at least 2 children |
| Wfq.WfqQueueDisc.CheckConfigIntended | model/wfq-queue-disc.cc:184-196 | as the comment intends: the same, with ChildrenCreated() (three) empty FIFOs for a disc without children |
| Wfq.DefaultConfiguredAsWritten | model/wfq-queue-disc.cc:186-189 | a default disc configured as written is accepted and valid with 2 children, yet an unmatched packet tagged with priority 1 selects a band it lacks, so DoEnqueue's precondition (the assertion at line 118) fails |
| Wfq.DefaultConfiguredIntended | model/wfq-queue-disc.cc:94-118 | a default disc configured with three children is accepted and valid, and DoEnqueue's precondition holds for every filter verdict and priority tag |

`BlackAqm.EnqueueSpec` states the following about one arrival:
- the average is updated exactly once, with the idle compensation, and idleness ends;
- the packet is queued exactly when it is accepted;
- below minTh, or with at most one packet queued, nothing is dropped or marked, and vProb
  and `m_old` reset;
- in the forced region the packet is dropped unless ECN marking is allowed and succeeds;
  the counters restart on a forced drop only in ns-1 compatibility;
- the first crossing admits the packet without a draw and restarts the counters at it;
- in the early region an unforced drop or mark happens exactly when the draw is at most
  the modified probability.

## Findings

| source | as written | input that shows it | evidently intended | confidence | as-written member | corrected member |
|---|---|---|---|---|---|---|
| model/wfq-queue-disc.cc:186-196 | CheckConfig's loop creates 2 FIFO children although its comment announces 3, while the default map (line 52) names band 2 | a default-configured disc without children; a packet no filter matches, tagged with priority 1: prio2band[1] = 2 is not below the 2 classes, so the assertion at line 118 fails | three children, one per band the default map names | not executed | Wfq.DefaultConfiguredAsWritten | Wfq.DefaultConfiguredIntended |

## Left out

- I/O and plumbing are not modelled: logging, `GetTypeId` attribute registration, object
  factories, smart pointers and the base-class statistics. Drops and marks are appended to
  a ghost log instead.
- BLACK: `std::pow`/`std::exp` and IEEE-754 rounding are not modelled. So the qW
  auto-defaults, the ptc and bottom derivations and the `uint32_t(m_ptc * seconds)`
  truncation are not computed: the idle-arrival count, targetDelay * ptc, the default
  weight and the bottom bound are parameters.
- BLACK: the cautious modes 1 to 3 are dead code (`m_cautious` is set to 0 in
  InitializeParams) and are not modelled.
- BLACK: the UniformRandomVariable stream is the parameter `u`, and ECN `Mark()` and the
  DropTail queue's verdict are parameters.
- BLACK and LLQ: uint32 counters and sizes are `nat`; their 32-bit wrap-around is not
  modelled.
- LLQ: the int32 wrap-around of the deficit is not modelled.
- LLQ: the packet hash (with its perturbation), the packet filters and the NetDevice MTU
  lookup are inputs.
- LLQ: the filter verdict is taken as a non-negative flow hash. The cast of other negative
  values to uint32 is not modelled.
- LLQ: each child PIE disc is a FIFO of packet sizes whose enqueue may refuse. Its own AQM
  and `InitializeParams` (the child factory settings) are not modelled.
- LLQ: `SetQuantum`/`GetQuantum` are plain field accesses and are not modelled separately.
- Llq.LlqQueueDisc.DoEnqueue: a packet the child refuses is neither queued nor logged.
  The child records that drop itself, and the child's own statistics are not modelled.
- Llq.LlqQueueDisc.DoEnqueue: requires a positive packet size. With zero-size packets the
  fat-flow drop could be asked to pop an empty child, and no such packets reach a queue
  disc.
- Llq.LlqQueueDisc.DoDequeue: requires a positive quantum, which an accepted CheckConfig
  guarantees. With a zero quantum the source's old-flows loop need not end.
- Llq.OldScanExact: states that the old-flows loop only raises deficits, not that each
  flow gains a whole number of quanta.
- Llq.LlqQueueDisc.NewScan and Llq.LlqQueueDisc.OldScan: state equality with NewScanOf and
  OldScanOf. The exact characterisations are proved about those functions (NewScanExact,
  OldScanExact) and not repeated in the methods' contracts.
- Llq.LlqQueueDisc.LLQDrop: requires a positive byte total, which holds whenever the
  overload rule calls it with positive packet sizes.
- BlackAqm.WellFormed: requires 0 < maxTh, a positive MeanPktSize and fengA != 0, which
  the attribute checkers at model/black-queue-disc.cc:72-76, model/black-queue-disc.cc:26-30
  and model/black-queue-disc.cc:122-126 do not enforce. With a zero maxTh or fengA the source
  computes an infinite or NaN double, which `real` cannot represent; with a zero MeanPktSize
  its integer division in byte mode is undefined behaviour in C++.
- BlackDisc.Initializable: requires 0 <= minTh and lInterm != 0, which the attribute checkers
  at model/black-queue-disc.cc:67-71 and model/black-queue-disc.cc:87-91 do not enforce. With
  lInterm = 0 the source's `1.0 / m_lInterm` (line 459) is an infinite double.
- Llq.LlqQueueDisc.Valid: requires Flows > 0, and SetWays > 0 under set-associative hashing,
  which the checkers at model/llq-queue-disc.cc:178-182 and model/llq-queue-disc.cc:199-203
  do not enforce. With either at 0 the source's `%` (lines 237-238, 296 and 464) is
  undefined behaviour in C++, which `nat` arithmetic cannot represent.
- BLACK: the doc-comment of `FengStatus` (model/black-queue-disc.h:49) states the `Between`
  inequality backwards; the model follows the code (model/black-queue-disc.cc:530), minTh <
  average < maxTh.
- BlackDisc.CheckConfig: conflicting adaptive modes are only reported, as in the code; the
  configuration is still accepted.
- BlackAqm.CalculatePNew: clamps the probability only above 1, as the code does.
- BlackAqm.UpdateMaxPBounds: the AIMD rule can step `m_curMaxP` one step past `bottom` or
  `top`, as the code does; the lemma states the bound the code keeps instead of [bottom, top].
- BlackDisc.BlackQueueDisc.SetTh: the documented `maxTh >= 2 minTh` is not enforced, as in
  the code; only `minTh <= maxTh` is (also in `InitializeParams`).
- Wfq.WfqQueueDisc.CheckConfig: models the loop as written (two children, although the
  comment announces three); CheckConfigIntended creates three (see Findings).
- WFQ: the input stream's own number syntax is not modelled: a sign character, and the
  fail state after a value above 65535, beyond treating such a read as failed. `ReadBand`
  reads optional whitespace and then decimal digits.
- WfqMap.ReadMap: does not state what the array holds after a failed read. The source
  raises a fatal error there.
- WFQ: the packet filters and the SocketPriorityTag are inputs.
- WFQ: each child FIFO disc is a FIFO of packet sizes whose enqueue may refuse.
