# Verified models of a PPPoE node, kernel lists, a stream cipher and classic algorithms

Dafny models of the substantial programs of the repository, with proofs about every input, every run
or every interleaving. `dafny verify dfyconfig.toml` checks the project.

## What is modelled

- **PPPoE node** (RFC 2516), files `Pppoe*.dfy`. `PppoeTags` is the tag codec. `PppoeNode` gives the state of a
  node and, for each event, the step it makes: `StepAfter` for the version with a listener list, `StepBefore` for the
  one that scans all hooks. `PppoeInvariants` and `PppoeRuns` prove what every step and every run keeps, `PppoeTimers`
  and `PppoeTimerRuns` the retransmission timer, `PppoeAllocator` the loop that draws session IDs, `PppoeRefinement`
  that the two versions agree, `PppoeHandshake` and `PppoeHandshakeRuns` that two nodes talking to each other, busy as
  they may be, establish a session that carries data, `PppoeOutputs` what the node sends and to whom, `PppoeWire` and
  `PppoeAnswers` the packets and the answers to each event on bytes; `PppoeWitnesses`, with `PppoeScripts`, holds the
  runs that show which expectations fail. `PppoeDriver` is the node as an object updated in place, whose handlers are
  proved to make exactly the steps of `StepAfter`; `PppoeScan` has the handlers in which the older version differs. One
  event is one atomic step.
- **Kernel lists**: `TailQueue` (TAILQ), `LinkList` (LIST) and `SingleTailQueue` (STAILQ) on the heap, with back links
  that are addresses of pointer fields; `CkReaders` (CK_SLIST, CK_STAILQ) as interleavings of single stores of one
  writer with single loads of any number of readers.
- **Salsa20**, `Salsa20.dfy`: rounds, hash, key expansion and the seeking stream cipher with its cached block;
  `Salsa20Vectors.dfy`: what its words and bytes are, and vectors of the specification.
- **Algorithms**: `Queens`, `Hanoi` (the program) and `HanoiGame` (the game it plays), `Quicksort`, `ListMergeSort`, `AvTree`.
- **Runway scheduler**, `Runway.dfy`, with planes joining the queues arbitrarily between ticks.

`Basics` holds the small types and sequence functions they share.

## Where the code differs from what one would expect

- **Session index.** `if (sp->Session_ID)` in the disconnect handler skips the removal from the bucket when the peer
  assigned ID 0. `PppoeWitnesses.DanglingRun` is such a run; `PppoeRuns.IndexExactIff` and `PppoeRuns.RunIndexExactIff`
  give the exact condition; `PppoeRuns.RfcRunsAreClean` shows that a peer that obeys section 5.4 of RFC 2516 never
  causes it.
  A `Run` of the model ends with the first state in which a bucket holds a freed session (`PppoeNode.Safe`), which is
  before the code follows the pointer; the other theorems about whole runs are about `Clean` runs, without such a state.
- **Timers.** A server session whose offer timed out stays in SOFFER without a timer until its hook is gone, as the
  removal is asynchronous. `PppoeWitnesses.UnarmedRun` is such a run; `PppoeTimers.TimerArmedIff` is the
  exact condition.
- **Choice of listener.** With several matching listeners (wildcards) the two versions may forward a PADI to different
  ones: `PppoeWitnesses.DifferentChoiceRun` reaches such a node. `PppoeRefinement.ChoiceAgreesIff` gives the exact
  condition, and `PppoeRefinement.SameActions` is what is left without it.
- **Allocator.** With all 65534 IDs of a node in use a first PADR would loop for ever:
  `PppoeAllocator.AllocatorReturnsIff` says that some turn finds an ID if and only if one is free, and
  `PppoeWitnesses.NoIdLeftRun` reaches a node where none is when a first PADR comes. `PppoeRuns.FewSessionsLeaveAnId`
  bounds it.
- **Length field.** A comment above `get_tag` assumes that the length field of a packet lies within the received bytes.
  `ng_pppoe_rcvdata_ether` does not check this field of a discovery packet. `PppoeTags.SearchInsideIff` gives the exact
  condition under which a search stays within the received bytes; `PppoeNode.EmptyPacketIsLeft` shows packets for which
  it does not. Searches that do are all modelled, also those of packets that declare more than was received.

These two are the conditions on events (`PppoeNode.Enabled`) besides the promises of the framework.

## Model

| member | source | states |
|---|---|---|
| PppoeTags.ParseInvertsEncode | src/example-archive/real-world-c-changes/freebsd-src/dda30f129e1cb57b09399b6eb56f101c612e8202/sys/netgraph/ng_pppoe_after.c:368-401 | Parsing an encoded tag list gives exactly that list back. |
| PppoeTags.ParseIsMaximalPrefix | src/example-archive/real-world-c-changes/freebsd-src/dda30f129e1cb57b09399b6eb56f101c612e8202/sys/netgraph/ng_pppoe_after.c:296-335 | On arbitrary bytes the parsed tags, encoded again, are a prefix of the input, and no complete tag starts where they end. |
| PppoeTags.ParseFromIsParse | src/example-archive/real-world-c-changes/freebsd-src/dda30f129e1cb57b09399b6eb56f101c612e8202/sys/netgraph/ng_pppoe_after.c:303-335 | Walking by offset and parsing the remaining bytes are the same. |
| PppoeTags.WireFormat | src/example-archive/real-world-c-changes/freebsd-src/dda30f129e1cb57b09399b6eb56f101c612e8202/sys/netgraph/ng_pppoe_after.c:384-397 | An encoded list, byte for byte: at the offset of each tag its type and its length, high byte first, and then its data. |
| PppoeTags.ParsedFormat | src/example-archive/real-world-c-changes/freebsd-src/dda30f129e1cb57b09399b6eb56f101c612e8202/sys/netgraph/ng_pppoe_after.c:303-335 | The tags parsed from arbitrary bytes, byte for byte: at the offset of each the bytes give its type, its length, high byte first, and its data. |
| PppoeTags.ParsedEnd | src/example-archive/real-world-c-changes/freebsd-src/dda30f129e1cb57b09399b6eb56f101c612e8202/sys/netgraph/ng_pppoe_after.c:303-335 | Behind the last parsed tag no four bytes are left, or the length they give exceeds what is left. |
| PppoeTags.TagAtBytes | src/example-archive/real-world-c-changes/freebsd-src/dda30f129e1cb57b09399b6eb56f101c612e8202/sys/netgraph/ng_pppoe_after.c:303-328 | What a complete tag at an offset is, on bytes. |
| PppoeTags.SearchInsideIff | src/example-archive/real-world-c-changes/freebsd-src/dda30f129e1cb57b09399b6eb56f101c612e8202/sys/netgraph/ng_pppoe_after.c:296-335 | A search walks only over received bytes if and only if the declared length does not exceed them, or a complete received tag has the wanted type, or behind the complete tags no header fits into the declared length or the one received there tells of more than that. |
| PppoeTags.NothingReceived | src/example-archive/real-world-c-changes/freebsd-src/dda30f129e1cb57b09399b6eb56f101c612e8202/sys/netgraph/ng_pppoe_after.c:303-335 | With no tag bytes received a search stays inside if and only if no header fits into the declared length. |
| PppoeTags.GetTag | src/example-archive/real-world-c-changes/freebsd-src/dda30f129e1cb57b09399b6eb56f101c612e8202/sys/netgraph/ng_pppoe_after.c:296-335 | Whenever the search stays inside: it ends, reads only received bytes, and returns the offset of the first complete tag of the wanted type inside the declared length, or -1 exactly when there is none; the bytes at the offset are the type and the length, high byte first, of a tag within the length. |
| PppoeTags.InsertAllAppends | src/example-archive/real-world-c-changes/freebsd-src/dda30f129e1cb57b09399b6eb56f101c612e8202/sys/netgraph/ng_pppoe_after.c:341-364 | Inserting tags appends as many as the 20 slots allow; the rest is dropped. |
| PppoeTags.ScanTags | src/example-archive/real-world-c-changes/freebsd-src/dda30f129e1cb57b09399b6eb56f101c612e8202/sys/netgraph/ng_pppoe_after.c:1852-1896 | Whenever the scan stays inside: of an incoming packet exactly the relay tags before an end-of-list tag are copied, in order, as far as there is room; only received bytes are read. |
| PppoeTags.RelayTagsConcat | src/example-archive/real-world-c-changes/freebsd-src/dda30f129e1cb57b09399b6eb56f101c612e8202/sys/netgraph/ng_pppoe_after.c:1873-1893 | Up to an end-of-list tag the relay tags of two lists are those of the first and then those of the second. |
| PppoeTags.RelayTagsOfOne | src/example-archive/real-world-c-changes/freebsd-src/dda30f129e1cb57b09399b6eb56f101c612e8202/sys/netgraph/ng_pppoe_after.c:1873-1893 | A single tag is a relay tag if and only if its type is 0x0110, and nothing behind a tag of type 0 is one. |
| PppoeTags.FitCountIsLongest | src/example-archive/real-world-c-changes/freebsd-src/dda30f129e1cb57b09399b6eb56f101c612e8202/sys/netgraph/ng_pppoe_after.c:378-395 | The tags kept are the longest prefix within the frame limit: they fit, and any longer prefix does not. |
| PppoeTags.FitCountStep | src/example-archive/real-world-c-changes/freebsd-src/dda30f129e1cb57b09399b6eb56f101c612e8202/sys/netgraph/ng_pppoe_after.c:378-395 | A tag is kept exactly when it still fits behind those before it. |
| PppoeTags.MakePacket | src/example-archive/real-world-c-changes/freebsd-src/dda30f129e1cb57b09399b6eb56f101c612e8202/sys/netgraph/ng_pppoe_after.c:366-401 | The buffer holds the encoding of the longest prefix of tags that fits, the reported length agrees, and no byte behind it is touched. |
| PppoeTags.PayloadBytes | src/example-archive/real-world-c-changes/freebsd-src/dda30f129e1cb57b09399b6eb56f101c612e8202/sys/netgraph/ng_pppoe_after.c:366-401 | The tags of a built payload, byte for byte: type and length, high byte first, and data, one behind the other. |
| PppoeTags.PayloadCount | src/example-archive/real-world-c-changes/freebsd-src/dda30f129e1cb57b09399b6eb56f101c612e8202/sys/netgraph/ng_pppoe_after.c:378-395 | A payload keeps as many tags as fit into 1494 bytes, counting four bytes and the data for each. |
| PppoeTags.PacketRoundTrip | src/example-archive/real-world-c-changes/freebsd-src/dda30f129e1cb57b09399b6eb56f101c612e8202/sys/netgraph/ng_pppoe_after.c:296-401 | Parsing a built payload gives the kept tags; the first tag of a type in it is the first inserted one of that type. |
| PppoeNode.PtrBytes | src/example-archive/real-world-c-changes/freebsd-src/dda30f129e1cb57b09399b6eb56f101c612e8202/sys/netgraph/ng_pppoe_after.c:1071-1074 | A session address survives the trip through the eight bytes of a Host-Uniq or AC-Cookie tag. |
| PppoeNode.UndigitsDigits | src/example-archive/real-world-c-changes/freebsd-src/dda30f129e1cb57b09399b6eb56f101c612e8202/sys/netgraph/ng_pppoe_after.c:1071-1074 | The bytes of a number give the number back. |
| PppoeNode.SameNameBytes | src/example-archive/real-world-c-changes/freebsd-src/dda30f129e1cb57b09399b6eb56f101c612e8202/sys/netgraph/ng_pppoe_after.c:431-440 | Two names are taken for the same if and only if they have the same length and agree byte by byte up to the first zero. |
| PppoeNode.MatchRule | src/example-archive/real-world-c-changes/freebsd-src/dda30f129e1cb57b09399b6eb56f101c612e8202/sys/netgraph/ng_pppoe_after.c:422-440 | A listener matches a request if and only if its service is empty, is "*", or agrees with the wanted one byte by byte up to the first zero. |
| PppoeNode.MatchSvcIsFirst | src/example-archive/real-world-c-changes/freebsd-src/dda30f129e1cb57b09399b6eb56f101c612e8202/sys/netgraph/ng_pppoe_after.c:416-447 | The result is the first listener in list order whose service matches; without a result none matches. |
| PppoeNode.FindSvcIsFirst | src/example-archive/real-world-c-changes/freebsd-src/dda30f129e1cb57b09399b6eb56f101c612e8202/sys/netgraph/ng_pppoe_after.c:477-492 | The result is the first listener in list order of that very name; without a result none has it. |
| PppoeNode.MatchSvcScanIsFirst | src/example-archive/real-world-c-changes/freebsd-src/dda30f129e1cb57b09399b6eb56f101c612e8202/sys/netgraph/ng_pppoe_before.c:415-453 | The hook scan returns the session of the first hook that listens and matches; without a result none does. |
| PppoeNode.FindSvcScanIsFirst | src/example-archive/real-world-c-changes/freebsd-src/dda30f129e1cb57b09399b6eb56f101c612e8202/sys/netgraph/ng_pppoe_before.c:495-520 | The hook scan returns the session of the first hook that listens under that name; without a result none does. |
| PppoeNode.FindSessionIsFirst | src/example-archive/real-world-c-changes/freebsd-src/dda30f129e1cb57b09399b6eb56f101c612e8202/sys/netgraph/ng_pppoe_after.c:558-578 | The result is the first session of the bucket with the wanted ID and peer; without a result no session of the bucket has both. |
| PppoeNode.LeastFree | src/example-archive/real-world-c-changes/freebsd-src/dda30f129e1cb57b09399b6eb56f101c612e8202/sys/netgraph/ng_pppoe_after.c:505-528 | The least unused ID from a point on, if there is one. |
| PppoeNode.NewSid | src/example-archive/real-world-c-changes/freebsd-src/dda30f129e1cb57b09399b6eb56f101c612e8202/sys/netgraph/ng_pppoe_after.c:498-531 | The ID is in 1..0xFFFE, no hashed session holds it, and every ID passed over from the counter on, also after a wrap, is in use. |
| PppoeNode.ShortLengthInside | src/example-archive/real-world-c-changes/freebsd-src/dda30f129e1cb57b09399b6eb56f101c612e8202/sys/netgraph/ng_pppoe_after.c:296-335 | A declared length within the received bytes keeps every search inside. |
| PppoeNode.EmptyPacketIsLeft | src/example-archive/real-world-c-changes/freebsd-src/dda30f129e1cb57b09399b6eb56f101c612e8202/sys/netgraph/ng_pppoe_after.c:1290-1365 | In every state of the node the handler of a PADI, PADO, PADR or PADS that ends with its header, but declares room for a tag header, searches beyond the received bytes. |
| PppoeInvariants.PutKeeps | src/example-archive/real-world-c-changes/freebsd-src/dda30f129e1cb57b09399b6eb56f101c612e8202/sys/netgraph/ng_pppoe_after.c:498-578 | A change to one session that moves it in or out of no list keeps the whole invariant. |
| PppoeInvariants.IndexInsert | src/example-archive/real-world-c-changes/freebsd-src/dda30f129e1cb57b09399b6eb56f101c612e8202/sys/netgraph/ng_pppoe_after.c:533-543 | Entering the bucket of the new ID keeps every bucket exact. |
| PppoeInvariants.ServerSidsInsert | src/example-archive/real-world-c-changes/freebsd-src/dda30f129e1cb57b09399b6eb56f101c612e8202/sys/netgraph/ng_pppoe_after.c:498-531 | A fresh ID keeps server IDs pairwise distinct. |
| PppoeInvariants.HashKeeps | src/example-archive/real-world-c-changes/freebsd-src/dda30f129e1cb57b09399b6eb56f101c612e8202/sys/netgraph/ng_pppoe_after.c:498-543 | A session that becomes connected and enters the bucket of its ID keeps the invariant. |
| PppoeInvariants.ExpireFits | src/example-archive/real-world-c-changes/freebsd-src/dda30f129e1cb57b09399b6eb56f101c612e8202/sys/netgraph/ng_pppoe_after.c:1807-1850 | The ticker keeps the discipline of negotiation block and timer, and runs only in SINIT, SREQ and SOFFER. |
| PppoeInvariants.ConnectKeeps | src/example-archive/real-world-c-changes/freebsd-src/dda30f129e1cb57b09399b6eb56f101c612e8202/sys/netgraph/ng_pppoe_after.c:839-870 | CONNECT keeps the invariant. |
| PppoeInvariants.OfferKeeps | src/example-archive/real-world-c-changes/freebsd-src/dda30f129e1cb57b09399b6eb56f101c612e8202/sys/netgraph/ng_pppoe_after.c:894-913 | OFFER keeps the invariant. |
| PppoeInvariants.ServiceKeeps | src/example-archive/real-world-c-changes/freebsd-src/dda30f129e1cb57b09399b6eb56f101c612e8202/sys/netgraph/ng_pppoe_after.c:914-934 | SERVICE keeps the invariant. |
| PppoeInvariants.ListenKeeps | src/example-archive/real-world-c-changes/freebsd-src/dda30f129e1cb57b09399b6eb56f101c612e8202/sys/netgraph/ng_pppoe_after.c:774-782 | LISTEN keeps the invariant, in particular distinct service names. |
| PppoeInvariants.FromHookKeeps | src/example-archive/real-world-c-changes/freebsd-src/dda30f129e1cb57b09399b6eb56f101c612e8202/sys/netgraph/ng_pppoe_after.c:1130-1274 | Data from a session hook, in every state, keeps the invariant. |
| PppoeInvariants.PadoKeeps | src/example-archive/real-world-c-changes/freebsd-src/dda30f129e1cb57b09399b6eb56f101c612e8202/sys/netgraph/ng_pppoe_after.c:1396-1478 | A PADO keeps the invariant. |
| PppoeInvariants.PadrKeeps | src/example-archive/real-world-c-changes/freebsd-src/dda30f129e1cb57b09399b6eb56f101c612e8202/sys/netgraph/ng_pppoe_after.c:1479-1557 | A PADR, first or repeated, keeps the invariant. |
| PppoeInvariants.PadsKeeps | src/example-archive/real-world-c-changes/freebsd-src/dda30f129e1cb57b09399b6eb56f101c612e8202/sys/netgraph/ng_pppoe_after.c:1558-1607 | A PADS, whatever ID it carries, keeps the invariant. |
| PppoeInvariants.SessionDataKeeps | src/example-archive/real-world-c-changes/freebsd-src/dda30f129e1cb57b09399b6eb56f101c612e8202/sys/netgraph/ng_pppoe_after.c:1622-1657 | Session data keeps the invariant. |
| PppoeInvariants.TimeoutKeeps | src/example-archive/real-world-c-changes/freebsd-src/dda30f129e1cb57b09399b6eb56f101c612e8202/sys/netgraph/ng_pppoe_after.c:1807-1850 | A timeout keeps the invariant. |
| PppoeInvariants.NewHookKeeps | src/example-archive/real-world-c-changes/freebsd-src/dda30f129e1cb57b09399b6eb56f101c612e8202/sys/netgraph/ng_pppoe_after.c:648-680 | A new hook keeps the invariant. |
| PppoeInvariants.ForgetKeeps | src/example-archive/real-world-c-changes/freebsd-src/dda30f129e1cb57b09399b6eb56f101c612e8202/sys/netgraph/ng_pppoe_after.c:1725-1797 | When a session is forgotten the invariant stays, provided a hashed one leaves its bucket. |
| PppoeInvariants.CommonStepKeeps | src/example-archive/real-world-c-changes/freebsd-src/dda30f129e1cb57b09399b6eb56f101c612e8202/sys/netgraph/ng_pppoe_after.c:717-1666 | Every event that both versions handle alike keeps the invariant. |
| PppoeRuns.CommonStepEvolves | src/example-archive/real-world-c-changes/freebsd-src/dda30f129e1cb57b09399b6eb56f101c612e8202/sys/netgraph/ng_pppoe_after.c:717-1666 | One event moves a session along one edge of the state graph, never changes its side, and leaves an assigned ID, its peer and its header alone. |
| PppoeRuns.CommonStepAdds | src/example-archive/real-world-c-changes/freebsd-src/dda30f129e1cb57b09399b6eb56f101c612e8202/sys/netgraph/ng_pppoe_after.c:648-680 | Only a new hook creates a session, in its initial state. |
| PppoeRuns.StepKeeps | src/example-archive/real-world-c-changes/freebsd-src/dda30f129e1cb57b09399b6eb56f101c612e8202/sys/netgraph/ng_pppoe_after.c:717-1850 | Every event but the removal of a connected session with ID 0 keeps the invariant. |
| PppoeRuns.IndexExactIff | src/example-archive/real-world-c-changes/freebsd-src/dda30f129e1cb57b09399b6eb56f101c612e8202/sys/netgraph/ng_pppoe_after.c:1781-1784 | After a step the buckets are exact if and only if the event did not remove a connected session with ID 0. |
| PppoeRuns.DisconnectForgets | src/example-archive/real-world-c-changes/freebsd-src/dda30f129e1cb57b09399b6eb56f101c612e8202/sys/netgraph/ng_pppoe_after.c:1712-1802 | A disconnected session is in no table of the node any more, every other session keeps its entries, and a farewell is sent exactly when it was connected. |
| PppoeRuns.DisconnectLeavesBucketsIff | src/example-archive/real-world-c-changes/freebsd-src/dda30f129e1cb57b09399b6eb56f101c612e8202/sys/netgraph/ng_pppoe_after.c:1781-1784 | After its disconnect a session is in no bucket if and only if it was not connected with ID 0; no other entry goes. |
| PppoeRuns.RunKeepsInv | src/example-archive/real-world-c-changes/freebsd-src/dda30f129e1cb57b09399b6eb56f101c612e8202/sys/netgraph/ng_pppoe_after.c:717-1850 | The invariant holds in every state of every run up to such an event. |
| PppoeRuns.RunIndexExactIff | src/example-archive/real-world-c-changes/freebsd-src/dda30f129e1cb57b09399b6eb56f101c612e8202/sys/netgraph/ng_pppoe_after.c:1781-1784 | In a run the buckets are exact in every state if and only if no event removes a connected session with ID 0. |
| PppoeRuns.CleanRunIndexExact | src/example-archive/real-world-c-changes/freebsd-src/dda30f129e1cb57b09399b6eb56f101c612e8202/sys/netgraph/ng_pppoe_after.c:498-578 | In runs without such an event every state has exact buckets. |
| PppoeRuns.RfcRunsAreClean | src/example-archive/real-world-c-changes/freebsd-src/dda30f129e1cb57b09399b6eb56f101c612e8202/sys/netgraph/ng_pppoe_after.c:1579-1589 | If every accepted PADS carries a non-zero ID (section 5.4 of RFC 2516), every state of every run has the invariant. |
| PppoeRuns.OneListPerSession | src/example-archive/real-world-c-changes/freebsd-src/dda30f129e1cb57b09399b6eb56f101c612e8202/sys/netgraph/ng_pppoe_after.c:871-893 | No session is on two lists, so one link field is enough. |
| PppoeRuns.FindSessionIsScan | src/example-archive/real-world-c-changes/freebsd-src/dda30f129e1cb57b09399b6eb56f101c612e8202/sys/netgraph/ng_pppoe_after.c:558-578 | The bucket lookup finds a session if and only if a scan of all connected sessions would. |
| PppoeRuns.FoundSessionIsConnected | src/example-archive/real-world-c-changes/freebsd-src/dda30f129e1cb57b09399b6eb56f101c612e8202/sys/netgraph/ng_pppoe_after.c:1639-1655 | A session found for data is NEWCONNECTED or CONNECTED, and has no timer pending; the other branch is dead. |
| PppoeRuns.IdInUseIsScan | src/example-archive/real-world-c-changes/freebsd-src/dda30f129e1cb57b09399b6eb56f101c612e8202/sys/netgraph/ng_pppoe_after.c:505-528 | The allocator's bucket test says exactly whether any connected session holds the ID. |
| PppoeRuns.FewSessionsLeaveAnId | src/example-archive/real-world-c-changes/freebsd-src/dda30f129e1cb57b09399b6eb56f101c612e8202/sys/netgraph/ng_pppoe_after.c:498-531 | With fewer than 65534 sessions some ID is free, so the allocator returns. |
| PppoeRuns.StepEvolves | src/example-archive/real-world-c-changes/freebsd-src/dda30f129e1cb57b09399b6eb56f101c612e8202/sys/netgraph/ng_pppoe_after.c:717-1850 | Every event moves a session along one edge, or removes it by its own disconnect. |
| PppoeRuns.RunEvolves | src/example-archive/real-world-c-changes/freebsd-src/dda30f129e1cb57b09399b6eb56f101c612e8202/sys/netgraph/ng_pppoe_after.c:1479-1557 | Over any stretch of a run a session keeps its side, never returns to SNONE, and once connected keeps ID and peer, however often the PADR is retried. |
| PppoeRuns.RunServerSidsDistinct | src/example-archive/real-world-c-changes/freebsd-src/dda30f129e1cb57b09399b6eb56f101c612e8202/sys/netgraph/ng_pppoe_after.c:498-531 | IDs handed out to live sessions are in 1..0xFFFE and pairwise distinct in every state of every run. |
| PppoeTimers.TimerArmedIff | src/example-archive/real-world-c-changes/freebsd-src/dda30f129e1cb57b09399b6eb56f101c612e8202/sys/netgraph/ng_pppoe_after.c:1044-1085 | A timer is pending if and only if the session is in SINIT, SREQ or SOFFER and is not a server session that gave up and waits for its removal. |
| PppoeTimers.TickerActs | src/example-archive/real-world-c-changes/freebsd-src/dda30f129e1cb57b09399b6eb56f101c612e8202/sys/netgraph/ng_pppoe_after.c:1807-1850 | The ticker never reaches its default branch: it resends the last packet or removes the hook. |
| PppoeTimers.GiveUpAfter | src/example-archive/real-world-c-changes/freebsd-src/dda30f129e1cb57b09399b6eb56f101c612e8202/sys/netgraph/ng_pppoe_after.c:1831-1835 | The number of the first firing whose doubled delay exceeds the limit. |
| PppoeTimerRuns.OthersLeave | src/example-archive/real-world-c-changes/freebsd-src/dda30f129e1cb57b09399b6eb56f101c612e8202/sys/netgraph/ng_pppoe_after.c:717-1850 | No event changes a session in SINIT, SREQ or SOFFER but its own timeout, its own disconnect, an offer it accepts, the PADS that confirms it, and a PADR for its offer. |
| PppoeTimerRuns.DelaysInRange | src/example-archive/real-world-c-changes/freebsd-src/dda30f129e1cb57b09399b6eb56f101c612e8202/sys/netgraph/ng_pppoe_after.c:1044-1085 | In every state of every run a session in SINIT or SREQ has its timer pending with a delay between the initial one and the limit. |
| PppoeTimerRuns.UnansweredIsExpired | src/example-archive/real-world-c-changes/freebsd-src/dda30f129e1cb57b09399b6eb56f101c612e8202/sys/netgraph/ng_pppoe_after.c:1807-1850 | Over any stretch of any run a session that is neither answered nor removed is exactly what the firings of its own timer make of it. |
| PppoeTimerRuns.InitBacksOff | src/example-archive/real-world-c-changes/freebsd-src/dda30f129e1cb57b09399b6eb56f101c612e8202/sys/netgraph/ng_pppoe_after.c:1824-1839 | In any run an unanswered PADI is resent unchanged; after k firings its delay is the initial one doubled k times and cut off at the limit. |
| PppoeTimerRuns.RequestBacksOff | src/example-archive/real-world-c-changes/freebsd-src/dda30f129e1cb57b09399b6eb56f101c612e8202/sys/netgraph/ng_pppoe_after.c:1824-1839 | In any run a fresh unanswered PADR is resent unchanged with doubling delays, and at firing floor(log2(LIMIT/INITIAL)) becomes a fresh PADI. |
| PppoeTimerRuns.RequestReverts | src/example-archive/real-world-c-changes/freebsd-src/dda30f129e1cb57b09399b6eb56f101c612e8202/sys/netgraph/ng_pppoe_after.c:1807-1850 | From any SREQ state of any run, whatever its delay: without a PADS for it and without its disconnect the session is back in SINIT after at most floor(log2(LIMIT/INITIAL)) firings. |
| PppoeRefinement.FindSvcAgrees | src/example-archive/real-world-c-changes/freebsd-src/dda30f129e1cb57b09399b6eb56f101c612e8202/sys/netgraph/ng_pppoe_after.c:477-492 | Listener list and hook scan find the same session for a name, as names are pairwise distinct. |
| PppoeRefinement.MatchSvcAgrees | src/example-archive/real-world-c-changes/freebsd-src/dda30f129e1cb57b09399b6eb56f101c612e8202/sys/netgraph/ng_pppoe_after.c:416-447 | Listener list and hook scan match a request in the same cases, and both choices match it. |
| PppoeRefinement.StepsAgree | src/example-archive/real-world-c-changes/freebsd-src/dda30f129e1cb57b09399b6eb56f101c612e8202/sys/netgraph/ng_pppoe_after.c:717-1802 | On one event both versions reach the same state with the same error code and the same actions, up to which matching listener gets a PADI. |
| PppoeRefinement.RunsAgree | src/example-archive/real-world-c-changes/freebsd-src/dda30f129e1cb57b09399b6eb56f101c612e8202/sys/netgraph/ng_pppoe_before.c:415-520 | On the same events from the same start both versions go through the same states. |
| PppoeRefinement.ChoiceAgreesIff | src/example-archive/real-world-c-changes/freebsd-src/dda30f129e1cb57b09399b6eb56f101c612e8202/sys/netgraph/ng_pppoe_before.c:415-453 | The two versions choose the same listener for a name, in whatever order the hooks were linked, if and only if at most one listener matches it. |
| PppoeRefinement.ChoiceDiffers | src/example-archive/real-world-c-changes/freebsd-src/dda30f129e1cb57b09399b6eb56f101c612e8202/sys/netgraph/ng_pppoe_before.c:415-453 | With two matching listeners some order of the hooks makes the two versions choose differently. |
| PppoeRefinement.ActionsAgree | src/example-archive/real-world-c-changes/freebsd-src/dda30f129e1cb57b09399b6eb56f101c612e8202/sys/netgraph/ng_pppoe_after.c:717-1802 | With at most one matching listener the actions on any event are the same. |
| PppoeHandshake.OfferSent | src/example-archive/real-world-c-changes/freebsd-src/dda30f129e1cb57b09399b6eb56f101c612e8202/sys/netgraph/ng_pppoe_after.c:1177-1260 | A PADI built by a client is answered with an offer that returns its Host-Uniq and service and adds the AC-Cookie. |
| PppoeHandshake.RequestSent | src/example-archive/real-world-c-changes/freebsd-src/dda30f129e1cb57b09399b6eb56f101c612e8202/sys/netgraph/ng_pppoe_after.c:1396-1478 | An offer that reaches its client is answered with a PADR that returns both addresses. |
| PppoeHandshake.ConfirmSent | src/example-archive/real-world-c-changes/freebsd-src/dda30f129e1cb57b09399b6eb56f101c612e8202/sys/netgraph/ng_pppoe_after.c:1479-1557 | A PADR that reaches its server draws a new ID and is answered with a PADS for that client. |
| PppoeHandshake.SessionJoined | src/example-archive/real-world-c-changes/freebsd-src/dda30f129e1cb57b09399b6eb56f101c612e8202/sys/netgraph/ng_pppoe_after.c:1558-1607 | A PADS that reaches its client connects it with the server's ID. |
| PppoeHandshake.HandshakeEstablishes | src/example-archive/real-world-c-changes/freebsd-src/dda30f129e1cb57b09399b6eb56f101c612e8202/sys/netgraph/ng_pppoe_after.c:1365-1607 | The four packets, through the encoder of one node and the parser of the other, establish a session: same ID in 1..0xFFFE, each knows the other's address, each lookup finds it. |
| PppoeHandshake.DataFlows | src/example-archive/real-world-c-changes/freebsd-src/dda30f129e1cb57b09399b6eb56f101c612e8202/sys/netgraph/ng_pppoe_after.c:1147-1176 | Over an established session what one side sends, less the bytes ff 03 if it begins with them, is delivered to the other side's hook, and the session stays established. |
| PppoeOutputs.RefusalLeavesNoTrace | src/example-archive/real-world-c-changes/freebsd-src/dda30f129e1cb57b09399b6eb56f101c612e8202/sys/netgraph/ng_pppoe_after.c:717-1666 | An event answered with an error code changes nothing of the modelled state and sends nothing. |
| PppoeOutputs.SentPacketsWellFormed | src/example-archive/real-world-c-changes/freebsd-src/dda30f129e1cb57b09399b6eb56f101c612e8202/sys/netgraph/ng_pppoe_after.c:366-401 | In every reachable state every packet put on the wire comes from the node's own address, has a length field that agrees with its body, and fits the frame. |
| PppoeOutputs.PadiForwardedIff | src/example-archive/real-world-c-changes/freebsd-src/dda30f129e1cb57b09399b6eb56f101c612e8202/sys/netgraph/ng_pppoe_after.c:1366-1395 | A PADI is forwarded whole to a listener that matches it if and only if it names a service and some listener matches. |
| PppoeOutputs.PadtRemovesIff | src/example-archive/real-world-c-changes/freebsd-src/dda30f129e1cb57b09399b6eb56f101c612e8202/sys/netgraph/ng_pppoe_after.c:1608-1617 | A PADT removes the connected session with its ID and its sender as peer, if there is one, and no other. |
| PppoeOutputs.HangUp | src/example-archive/real-world-c-changes/freebsd-src/dda30f129e1cb57b09399b6eb56f101c612e8202/sys/netgraph/ng_pppoe_after.c:1729-1780 | When one end of an established session goes away, its farewell reaches the other end and removes exactly that session there. |
| PppoeWire.PadiBytes | src/example-archive/real-world-c-changes/freebsd-src/dda30f129e1cb57b09399b6eb56f101c612e8202/sys/netgraph/ng_pppoe_after.c:1062-1076 | The bytes of a PADI: 01 03 00 08 and the address of the session, 01 01, length and service. |
| PppoeWire.PadoBytes | src/example-archive/real-world-c-changes/freebsd-src/dda30f129e1cb57b09399b6eb56f101c612e8202/sys/netgraph/ng_pppoe_after.c:1223-1245 | The bytes of a PADO to such a PADI: 01 02 concentrator, 01 01 service, if that is empty 01 01 extra service, 01 03 and 01 04 with the two addresses. |
| PppoeWire.PadrBytes | src/example-archive/real-world-c-changes/freebsd-src/dda30f129e1cb57b09399b6eb56f101c612e8202/sys/netgraph/ng_pppoe_after.c:1456-1466 | The bytes of a PADR: 01 03 and 01 04 with the two addresses, 01 02 concentrator, 01 01 service. |
| PppoeWire.PadsBytes | src/example-archive/real-world-c-changes/freebsd-src/dda30f129e1cb57b09399b6eb56f101c612e8202/sys/netgraph/ng_pppoe_after.c:1520-1529 | The bytes of a PADS: 01 02 concentrator, 01 01 service, 01 03 and 01 04 with the two addresses. |
| PppoeAnswers.MessageAnswered | src/example-archive/real-world-c-changes/freebsd-src/dda30f129e1cb57b09399b6eb56f101c612e8202/sys/netgraph/ng_pppoe_after.c:728-796 | Which error each control message gets, or none: bad sizes, no such hook, a hook without session, a service listened for already, a session in the wrong state, in this order. |
| PppoeAnswers.NamesOfConnect | src/example-archive/real-world-c-changes/freebsd-src/dda30f129e1cb57b09399b6eb56f101c612e8202/sys/netgraph/ng_pppoe_after.c:839-862 | CONNECT data up to the first backslash is the concentrator and what follows it the service; without a backslash all is the service. |
| PppoeAnswers.ConnectCalls | src/example-archive/real-world-c-changes/freebsd-src/dda30f129e1cb57b09399b6eb56f101c612e8202/sys/netgraph/ng_pppoe_after.c:1040-1085 | An accepted CONNECT sends one PADI, code 09, ID 0, to the broadcast address, with the bytes of the address of its session and the service; the session remembers both names. |
| PppoeAnswers.NameTakenIff | src/example-archive/real-world-c-changes/freebsd-src/dda30f129e1cb57b09399b6eb56f101c612e8202/sys/netgraph/ng_pppoe_after.c:477-492 | A name is taken if and only if some listener has it, byte by byte up to the first zero. |
| PppoeAnswers.NamesTaken | src/example-archive/real-world-c-changes/freebsd-src/dda30f129e1cb57b09399b6eb56f101c612e8202/sys/netgraph/ng_pppoe_after.c:871-935 | An accepted LISTEN, OFFER or SERVICE stores its data as service, concentrator or extra service, sends nothing, and LISTEN puts the session at the head of the listeners. |
| PppoeAnswers.NewListenerServes | src/example-archive/real-world-c-changes/freebsd-src/dda30f129e1cb57b09399b6eb56f101c612e8202/sys/netgraph/ng_pppoe_after.c:1366-1395 | A PADI goes to the newest listener if and only if its service is empty, is "*", or agrees byte by byte up to the first zero. |
| PppoeAnswers.OfferList | src/example-archive/real-world-c-changes/freebsd-src/dda30f129e1cb57b09399b6eb56f101c612e8202/sys/netgraph/ng_pppoe_after.c:1223-1245 | The tags of an offer to any request that leaves room: concentrator, requested service, extra service if none was requested by name, host tag, cookie, relay tags. |
| PppoeAnswers.RequestList | src/example-archive/real-world-c-changes/freebsd-src/dda30f129e1cb57b09399b6eb56f101c612e8202/sys/netgraph/ng_pppoe_after.c:1456-1466 | The tags of a request to any offer that leaves room: host tag, cookie, concentrator, own service, relay tags. |
| PppoeAnswers.ConfirmList | src/example-archive/real-world-c-changes/freebsd-src/dda30f129e1cb57b09399b6eb56f101c612e8202/sys/netgraph/ng_pppoe_after.c:1520-1529 | The tags of a confirmation to any request that leaves room: concentrator, service, host tag, cookie, relay tags. |
| PppoeAnswers.OfferTakenIff | src/example-archive/real-world-c-changes/freebsd-src/dda30f129e1cb57b09399b6eb56f101c612e8202/sys/netgraph/ng_pppoe_after.c:1434-1478 | A waiting client takes an offer if and only if it asked for no concentrator by name or the offer bears that name byte by byte; then one PADR, code 19, goes to the sender, else nothing happens. |
| PppoeAnswers.HookAnswered | src/example-archive/real-world-c-changes/freebsd-src/dda30f129e1cb57b09399b6eb56f101c612e8202/sys/netgraph/ng_pppoe_after.c:1177-1274 | A PRIMED session answers a PADI from its hook with one PADO, code 07, to the sender; anything else is refused with EINVAL, and in states without connection with ENETUNREACH. |
| PppoeAnswers.RequestConfirmed | src/example-archive/real-world-c-changes/freebsd-src/dda30f129e1cb57b09399b6eb56f101c612e8202/sys/netgraph/ng_pppoe_after.c:1479-1557 | A PADR for a session that offered or was confirmed gets one PADS, code 65, with the ID of the session, the old one if it has one. |
| PppoeAnswers.ConfirmationTaken | src/example-archive/real-world-c-changes/freebsd-src/dda30f129e1cb57b09399b6eb56f101c612e8202/sys/netgraph/ng_pppoe_after.c:1558-1607 | A PADS for a client that requested connects it with the ID of the packet to the concentrator it requested from. |
| PppoeAnswers.Unexpected | src/example-archive/real-world-c-changes/freebsd-src/dda30f129e1cb57b09399b6eb56f101c612e8202/sys/netgraph/ng_pppoe_after.c:1402-1585 | A PADO, PADR or PADS for nobody, or in a state that does not wait for it, changes and sends nothing; which error it gets. |
| PppoeAnswers.Unknown | src/example-archive/real-world-c-changes/freebsd-src/dda30f129e1cb57b09399b6eb56f101c612e8202/sys/netgraph/ng_pppoe_after.c:1618-1660 | Other discovery codes and other Ethernet types are refused without effect. |
| PppoeAnswers.DataArrives | src/example-archive/real-world-c-changes/freebsd-src/dda30f129e1cb57b09399b6eb56f101c612e8202/sys/netgraph/ng_pppoe_after.c:1622-1657 | Data for a session is refused if it is shorter than its length field and else delivered cut to it; the first ends the negotiation. |
| PppoeAnswers.DataLeaves | src/example-archive/real-world-c-changes/freebsd-src/dda30f129e1cb57b09399b6eb56f101c612e8202/sys/netgraph/ng_pppoe_after.c:1147-1176 | What an application sends leaves in one packet to the peer with the ID of the session, without the bytes ff 03 if it begins with them. |
| PppoeAnswers.SaysGoodbye | src/example-archive/real-world-c-changes/freebsd-src/dda30f129e1cb57b09399b6eb56f101c612e8202/sys/netgraph/ng_pppoe_after.c:1729-1780 | A connected session that goes away sends one PADT, code a7, to its peer with its ID and the error tag 02 03 "session closed"; any other session sends nothing. |
| PppoeAnswers.GoodbyeArrives | src/example-archive/real-world-c-changes/freebsd-src/dda30f129e1cb57b09399b6eb56f101c612e8202/sys/netgraph/ng_pppoe_after.c:1608-1617 | That packet, received as any other, asks for the removal of exactly the session at the other end. |
| PppoeAnswers.TimeoutSends | src/example-archive/real-world-c-changes/freebsd-src/dda30f129e1cb57b09399b6eb56f101c612e8202/sys/netgraph/ng_pppoe_after.c:1807-1850 | A timeout of a client sends the last packet again, byte for byte; when a request is given up, a PADI for the same service follows at once. |
| PppoeHandshakeRuns.CallStands | src/example-archive/real-world-c-changes/freebsd-src/dda30f129e1cb57b09399b6eb56f101c612e8202/sys/netgraph/ng_pppoe_after.c:1807-1850 | In any run an unanswered call stays the same but for its timer, however often that fires and whatever else happens. |
| PppoeHandshakeRuns.RequestStands | src/example-archive/real-world-c-changes/freebsd-src/dda30f129e1cb57b09399b6eb56f101c612e8202/sys/netgraph/ng_pppoe_after.c:1807-1850 | In any run an unanswered request stays the same but for its timer, until the client would give up. |
| PppoeHandshakeRuns.OfferStands | src/example-archive/real-world-c-changes/freebsd-src/dda30f129e1cb57b09399b6eb56f101c612e8202/sys/netgraph/ng_pppoe_after.c:1177-1260 | In any run an offer stands until its timeout, its disconnect or a PADR for it, whatever else happens. |
| PppoeHandshakeRuns.HandshakeInRuns | src/example-archive/real-world-c-changes/freebsd-src/dda30f129e1cb57b09399b6eb56f101c612e8202/sys/netgraph/ng_pppoe_after.c:1365-1607 | In any runs of two nodes, with any events in between that do not concern the two sessions, also timeouts of the client, the four packets establish the session. |
| PppoeScripts.StaysConnected | src/example-archive/real-world-c-changes/freebsd-src/dda30f129e1cb57b09399b6eb56f101c612e8202/sys/netgraph/ng_pppoe_after.c:1479-1557 | Over any stretch of events a connected session that is not removed stays connected with its ID. |
| PppoeScripts.Joins | src/example-archive/real-world-c-changes/freebsd-src/dda30f129e1cb57b09399b6eb56f101c612e8202/sys/netgraph/ng_pppoe_after.c:839-1607 | From any state of a node four events connect a new client session with whatever ID its peer chooses. |
| PppoeScripts.Offers | src/example-archive/real-world-c-changes/freebsd-src/dda30f129e1cb57b09399b6eb56f101c612e8202/sys/netgraph/ng_pppoe_after.c:894-1260 | From any state of a node three events lead a new server session to its offer. |
| PppoeWitnesses.DanglingRun | src/example-archive/real-world-c-changes/freebsd-src/dda30f129e1cb57b09399b6eb56f101c612e8202/sys/netgraph/ng_pppoe_after.c:1781-1784 | From any initial node five concrete events lead to a bucket that still holds a freed session. |
| PppoeWitnesses.FilledRun | src/example-archive/real-world-c-changes/freebsd-src/dda30f129e1cb57b09399b6eb56f101c612e8202/sys/netgraph/ng_pppoe_after.c:498-531 | From any initial node, for every k up to 65534, some run leads to connected sessions that hold the IDs 1 to k. |
| PppoeWitnesses.NoIdLeftRun | src/example-archive/real-world-c-changes/freebsd-src/dda30f129e1cb57b09399b6eb56f101c612e8202/sys/netgraph/ng_pppoe_after.c:498-531 | From any initial node some run leads to one where a first PADR meets a session that offered while every candidate of the allocator, in whatever turn, is in use. |
| PppoeWitnesses.UnarmedRun | src/example-archive/real-world-c-changes/freebsd-src/dda30f129e1cb57b09399b6eb56f101c612e8202/sys/netgraph/ng_pppoe_after.c:1807-1850 | From any initial node four concrete events lead to a session in SOFFER without a timer. |
| PppoeWitnesses.DifferentChoiceRun | src/example-archive/real-world-c-changes/freebsd-src/dda30f129e1cb57b09399b6eb56f101c612e8202/sys/netgraph/ng_pppoe_before.c:415-453 | From any initial node four concrete events lead to one on which, for every service name, the two versions choose different listeners. |
| PppoeAllocator.AllocatorReturnsIff | src/example-archive/real-world-c-changes/freebsd-src/dda30f129e1cb57b09399b6eb56f101c612e8202/sys/netgraph/ng_pppoe_after.c:498-531 | Some turn of the loop finds an unused ID if and only if some ID of 1..0xFFFE is unused; otherwise it starts over for ever. |
| PppoeAllocator.EveryIdIsTried | src/example-archive/real-world-c-changes/freebsd-src/dda30f129e1cb57b09399b6eb56f101c612e8202/sys/netgraph/ng_pppoe_after.c:505-514 | From any counter value every ID of 1..0xFFFE comes up as a candidate. |
| PppoeAllocator.SkipTaken | src/example-archive/real-world-c-changes/freebsd-src/dda30f129e1cb57b09399b6eb56f101c612e8202/sys/netgraph/ng_pppoe_after.c:505-528 | A taken candidate may be skipped without changing the answer of the allocator; a free one is the answer. |
| PppoeAllocator.SkipReserved | src/example-archive/real-world-c-changes/freebsd-src/dda30f129e1cb57b09399b6eb56f101c612e8202/sys/netgraph/ng_pppoe_after.c:505-514 | At the reserved 0xFFFF the allocator restarts from 1. |
| PppoeAllocator.TurnMakesProgress | src/example-archive/real-world-c-changes/freebsd-src/dda30f129e1cb57b09399b6eb56f101c612e8202/sys/netgraph/ng_pppoe_after.c:505-521 | One turn keeps the answer or gives it, and comes nearer to any free ID, also across wrap and restart. |
| PppoeDriver.CompareNames | src/example-archive/real-world-c-changes/freebsd-src/dda30f129e1cb57b09399b6eb56f101c612e8202/sys/netgraph/ng_pppoe_after.c:431-440 | Length test and strncmp give true if and only if the lengths are the same and the bytes agree up to the first zero. |
| PppoeDriver.FindSeparator | src/example-archive/real-world-c-changes/freebsd-src/dda30f129e1cb57b09399b6eb56f101c612e8202/sys/netgraph/ng_pppoe_after.c:839-870 | The position of the first backslash of CONNECT data. |
| PppoeDriver.FindHookByName | src/example-archive/real-world-c-changes/freebsd-src/dda30f129e1cb57b09399b6eb56f101c612e8202/sys/netgraph/ng_pppoe_after.c:765-768 | The loop returns the first hook of that name. |
| PppoeDriver.PppoeDriver.FindUniq | src/example-archive/real-world-c-changes/freebsd-src/dda30f129e1cb57b09399b6eb56f101c612e8202/sys/netgraph/ng_pppoe_after.c:580-598 | True if and only if some hook's session has that address. |
| PppoeDriver.PppoeDriver.MatchService | src/example-archive/real-world-c-changes/freebsd-src/dda30f129e1cb57b09399b6eb56f101c612e8202/sys/netgraph/ng_pppoe_after.c:416-447 | The loop over the listeners computes the match of the specification. |
| PppoeDriver.PppoeDriver.FindService | src/example-archive/real-world-c-changes/freebsd-src/dda30f129e1cb57b09399b6eb56f101c612e8202/sys/netgraph/ng_pppoe_after.c:477-492 | The loop over the listeners computes the lookup of the specification. |
| PppoeDriver.PppoeDriver.FindBySid | src/example-archive/real-world-c-changes/freebsd-src/dda30f129e1cb57b09399b6eb56f101c612e8202/sys/netgraph/ng_pppoe_after.c:558-578 | The loop over one bucket computes the lookup of the specification. |
| PppoeDriver.PppoeDriver.SidTaken | src/example-archive/real-world-c-changes/freebsd-src/dda30f129e1cb57b09399b6eb56f101c612e8202/sys/netgraph/ng_pppoe_after.c:515-521 | True if and only if a hashed session holds the ID. |
| PppoeDriver.PppoeDriver.TryNextSid | src/example-archive/real-world-c-changes/freebsd-src/dda30f129e1cb57b09399b6eb56f101c612e8202/sys/netgraph/ng_pppoe_after.c:505-521 | One turn in place: candidate and counter, also across wrap and restart; the candidate is refused if and only if a hashed session holds it, and always when no ID is free. |
| PppoeDriver.PppoeDriver.GetNewSession | src/example-archive/real-world-c-changes/freebsd-src/dda30f129e1cb57b09399b6eb56f101c612e8202/sys/netgraph/ng_pppoe_after.c:498-531 | Ends whenever some ID is free, with the ID and counter of the specification; the session enters its bucket. |
| PppoeDriver.PppoeDriver.StartClient | src/example-archive/real-world-c-changes/freebsd-src/dda30f129e1cb57b09399b6eb56f101c612e8202/sys/netgraph/ng_pppoe_after.c:1040-1085 | Tag list, encoder and timer in place leave a session in SINIT whose PADI carries its own address and service, with the initial delay. |
| PppoeDriver.PppoeDriver.Connect | src/example-archive/real-world-c-changes/freebsd-src/dda30f129e1cb57b09399b6eb56f101c612e8202/sys/netgraph/ng_pppoe_after.c:839-870 | The loops for hook and separator and the encoder together refuse, or start a client for exactly the name before and the service behind the separator. |
| PppoeDriver.PppoeDriver.Listen | src/example-archive/real-world-c-changes/freebsd-src/dda30f129e1cb57b09399b6eb56f101c612e8202/sys/netgraph/ng_pppoe_after.c:871-893 | With the loop over the listeners: refused if the checks fail, the name is taken or the session is not new, else one more listener at the head of the list. |
| PppoeDriver.PppoeDriver.ReceiveFromHook | src/example-archive/real-world-c-changes/freebsd-src/dda30f129e1cb57b09399b6eb56f101c612e8202/sys/netgraph/ng_pppoe_after.c:1130-1274 | Tag search over the raw packet, 20-slot list, separator and encoder together send exactly the packet, and leave exactly the session, that the tags as a list prescribe. |
| PppoeDriver.PppoeDriver.ReceivePadi | src/example-archive/real-world-c-changes/freebsd-src/dda30f129e1cb57b09399b6eb56f101c612e8202/sys/netgraph/ng_pppoe_after.c:1366-1395 | Tag search and loop over the listeners forward the PADI to the first matching listener of the list. |
| PppoeDriver.PppoeDriver.ReceivePado | src/example-archive/real-world-c-changes/freebsd-src/dda30f129e1cb57b09399b6eb56f101c612e8202/sys/netgraph/ng_pppoe_after.c:1396-1478 | Tag search, hook scan, name comparison and encoder together answer exactly an acceptable offer for a waiting client, with the prescribed PADR. |
| PppoeDriver.PppoeDriver.ReceivePadr | src/example-archive/real-world-c-changes/freebsd-src/dda30f129e1cb57b09399b6eb56f101c612e8202/sys/netgraph/ng_pppoe_after.c:1479-1557 | Tag search, hook scan, allocator loop and encoder together answer a PADR with the prescribed PADS, a first one with the least free ID from the counter on. |
| PppoeDriver.PppoeDriver.ReceivePads | src/example-archive/real-world-c-changes/freebsd-src/dda30f129e1cb57b09399b6eb56f101c612e8202/sys/netgraph/ng_pppoe_after.c:1558-1607 | Tag search and hook scan connect exactly the addressed client in SREQ, and enter it in the bucket of the ID received. |
| PppoeDriver.PppoeDriver.ReceivePadt | src/example-archive/real-world-c-changes/freebsd-src/dda30f129e1cb57b09399b6eb56f101c612e8202/sys/netgraph/ng_pppoe_after.c:1608-1617 | The loop over one bucket asks for the removal of the first session with that ID and peer, and of no other. |
| PppoeDriver.PppoeDriver.ReceiveSessionData | src/example-archive/real-world-c-changes/freebsd-src/dda30f129e1cb57b09399b6eb56f101c612e8202/sys/netgraph/ng_pppoe_after.c:1622-1657 | The loop over one bucket finds the session, whose hook gets exactly the declared length of the data; the first data of a new connection ends its negotiation. |
| PppoeDriver.PppoeDriver.Tick | src/example-archive/real-world-c-changes/freebsd-src/dda30f129e1cb57b09399b6eb56f101c612e8202/sys/netgraph/ng_pppoe_after.c:1807-1850 | In place, with the encoder for the restart: resend and double, give up as a server, or revert from PADR to a fresh PADI. |
| PppoeDriver.PppoeDriver.Handle | src/example-archive/real-world-c-changes/freebsd-src/dda30f129e1cb57b09399b6eb56f101c612e8202/sys/netgraph/ng_pppoe_after.c:717-1850 | On every event the node object makes exactly the step of the specification, and so keeps the invariant unless a connected session with ID 0 is removed. |
| PppoeScan.ScanningNode.MatchService | src/example-archive/real-world-c-changes/freebsd-src/dda30f129e1cb57b09399b6eb56f101c612e8202/sys/netgraph/ng_pppoe_before.c:415-453 | The loop over all hooks computes the scan of the specification. |
| PppoeScan.ScanningNode.FindService | src/example-archive/real-world-c-changes/freebsd-src/dda30f129e1cb57b09399b6eb56f101c612e8202/sys/netgraph/ng_pppoe_before.c:495-520 | The loop over all hooks computes the scan of the specification. |
| PppoeScan.ScanningNode.Listen | src/example-archive/real-world-c-changes/freebsd-src/dda30f129e1cb57b09399b6eb56f101c612e8202/sys/netgraph/ng_pppoe_before.c:792-925 | With the loop over all hooks: refused if the checks fail, the name is taken or the session is not new, else the session listens. |
| PppoeScan.ScanningNode.ReceivePadi | src/example-archive/real-world-c-changes/freebsd-src/dda30f129e1cb57b09399b6eb56f101c612e8202/sys/netgraph/ng_pppoe_before.c:1398-1428 | Tag search and loop over all hooks forward the PADI to the listening session of the first matching hook. |
| TailQueue.Head.HolderLoads | src/example-archive/real-world-c-changes/freebsd-src/2b86f9d6d013a9ad8b1f8d03286018e785d5b3f6/sys/kern/queue.h:838-857 | A head and an element's entry read as pointer and address: what each location of a valid list holds, and the address behind it. |
| TailQueue.Head.Last | src/example-archive/real-world-c-changes/freebsd-src/2b86f9d6d013a9ad8b1f8d03286018e785d5b3f6/sys/kern/queue.h:838-848 | Through the cast of the last next field to a head: the last element, or null. |
| TailQueue.Head.Prev | src/example-archive/real-world-c-changes/freebsd-src/2b86f9d6d013a9ad8b1f8d03286018e785d5b3f6/sys/kern/queue.h:853-854 | Through the cast of the previous next field to a head: the predecessor, or null for the first. |
| TailQueue.Head.LastFast | src/example-archive/real-world-c-changes/freebsd-src/2b86f9d6d013a9ad8b1f8d03286018e785d5b3f6/sys/kern/queue.h:848-851 | The last element, or null. |
| TailQueue.Head.ForeachReverse | src/example-archive/real-world-c-changes/freebsd-src/2b86f9d6d013a9ad8b1f8d03286018e785d5b3f6/sys/kern/queue.h:764-767 | The reverse traversal visits all elements from the last to the first. |
| TailQueue.Head.SplicedIsValid | src/example-archive/real-world-c-changes/freebsd-src/2b86f9d6d013a9ad8b1f8d03286018e785d5b3f6/sys/kern/queue.h:790-836 | The changed links of an insertion make a well-formed list of the elements with the new one put in. |
| TailQueue.Head.InsertHead | src/example-archive/real-world-c-changes/freebsd-src/2b86f9d6d013a9ad8b1f8d03286018e785d5b3f6/sys/kern/queue.h:815-826 | The list stays well formed and gains the element at its front. |
| TailQueue.Head.InsertTail | src/example-archive/real-world-c-changes/freebsd-src/2b86f9d6d013a9ad8b1f8d03286018e785d5b3f6/sys/kern/queue.h:828-836 | The list stays well formed and gains the element at its end. |
| TailQueue.Head.InsertAfter | src/example-archive/real-world-c-changes/freebsd-src/2b86f9d6d013a9ad8b1f8d03286018e785d5b3f6/sys/kern/queue.h:790-803 | The list stays well formed and gains the element right behind the given one. |
| TailQueue.InsertBefore | src/example-archive/real-world-c-changes/freebsd-src/2b86f9d6d013a9ad8b1f8d03286018e785d5b3f6/sys/kern/queue.h:805-813 | Without naming the head: the list of the given element stays well formed and gains the element right before it. |
| TailQueue.Head.BypassedIsValid | src/example-archive/real-world-c-changes/freebsd-src/2b86f9d6d013a9ad8b1f8d03286018e785d5b3f6/sys/kern/queue.h:863-879 | The changed links of a removal make a well-formed list of the other elements. |
| TailQueue.Head.Remove | src/example-archive/real-world-c-changes/freebsd-src/2b86f9d6d013a9ad8b1f8d03286018e785d5b3f6/sys/kern/queue.h:863-879 | The list stays well formed and loses exactly the element. |
| TailQueue.Head.Replace | src/example-archive/real-world-c-changes/freebsd-src/2b86f9d6d013a9ad8b1f8d03286018e785d5b3f6/sys/kern/queue.h:881-897 | The list stays well formed and has the new element in place of the old one. |
| TailQueue.Head.JoinedIsValid | src/example-archive/real-world-c-changes/freebsd-src/2b86f9d6d013a9ad8b1f8d03286018e785d5b3f6/sys/kern/queue.h:729-738 | The changed links of a concatenation make a well-formed list of both. |
| TailQueue.Head.Concat | src/example-archive/real-world-c-changes/freebsd-src/2b86f9d6d013a9ad8b1f8d03286018e785d5b3f6/sys/kern/queue.h:729-738 | The first list is the concatenation, the second is empty, both well formed. |
| TailQueue.Head.Swap | src/example-archive/real-world-c-changes/freebsd-src/2b86f9d6d013a9ad8b1f8d03286018e785d5b3f6/sys/kern/queue.h:899-914 | The two lists exchange their contents, both well formed. |
| LinkList.Head.Prev | src/example-archive/real-world-c-changes/freebsd-src/2b86f9d6d013a9ad8b1f8d03286018e785d5b3f6/sys/kern/queue.h:591-594 | The predecessor, or null for the first. |
| LinkList.Head.Foreach | src/example-archive/real-world-c-changes/freebsd-src/2b86f9d6d013a9ad8b1f8d03286018e785d5b3f6/sys/kern/queue.h:540-543 | The traversal visits the elements in order. |
| LinkList.Head.InsertHead | src/example-archive/real-world-c-changes/freebsd-src/2b86f9d6d013a9ad8b1f8d03286018e785d5b3f6/sys/kern/queue.h:581-587 | The list stays well formed and gains the element at its front. |
| LinkList.Head.SplicedIsValid | src/example-archive/real-world-c-changes/freebsd-src/2b86f9d6d013a9ad8b1f8d03286018e785d5b3f6/sys/kern/queue.h:564-587 | The changed links of an insertion make a well-formed list. |
| LinkList.InsertAfter | src/example-archive/real-world-c-changes/freebsd-src/2b86f9d6d013a9ad8b1f8d03286018e785d5b3f6/sys/kern/queue.h:564-571 | The list of the given element gains the new one right behind it. |
| LinkList.InsertBefore | src/example-archive/real-world-c-changes/freebsd-src/2b86f9d6d013a9ad8b1f8d03286018e785d5b3f6/sys/kern/queue.h:573-579 | The list of the given element gains the new one right before it. |
| LinkList.Head.BypassedIsValid | src/example-archive/real-world-c-changes/freebsd-src/2b86f9d6d013a9ad8b1f8d03286018e785d5b3f6/sys/kern/queue.h:599-610 | The changed links of a removal make a well-formed list. |
| LinkList.Remove | src/example-archive/real-world-c-changes/freebsd-src/2b86f9d6d013a9ad8b1f8d03286018e785d5b3f6/sys/kern/queue.h:599-610 | Without naming the head: the list of the element loses exactly it. |
| LinkList.Replace | src/example-archive/real-world-c-changes/freebsd-src/2b86f9d6d013a9ad8b1f8d03286018e785d5b3f6/sys/kern/queue.h:612-625 | The new element takes the place of the old one. |
| LinkList.Head.JoinedIsValid | src/example-archive/real-world-c-changes/freebsd-src/2b86f9d6d013a9ad8b1f8d03286018e785d5b3f6/sys/kern/queue.h:519-538 | The changed links of a concatenation make a well-formed list. |
| LinkList.Head.Concat | src/example-archive/real-world-c-changes/freebsd-src/2b86f9d6d013a9ad8b1f8d03286018e785d5b3f6/sys/kern/queue.h:519-538 | The search for the end terminates; the first list is the concatenation, the second is empty. |
| LinkList.Head.Swap | src/example-archive/real-world-c-changes/freebsd-src/2b86f9d6d013a9ad8b1f8d03286018e785d5b3f6/sys/kern/queue.h:627-635 | The two lists exchange their contents. |
| LinkList.Move | src/example-archive/real-world-c-changes/freebsd-src/2b86f9d6d013a9ad8b1f8d03286018e785d5b3f6/sys/kern/queue.h:581-610 | An element leaves one list and enters another; each of the two changes only as said. |
| SingleTailQueue.Head.Last | src/example-archive/real-world-c-changes/freebsd-src/2b86f9d6d013a9ad8b1f8d03286018e785d5b3f6/sys/kern/queue.h:396-399 | The last element, or null. |
| SingleTailQueue.Head.InsertHead | src/example-archive/real-world-c-changes/freebsd-src/2b86f9d6d013a9ad8b1f8d03286018e785d5b3f6/sys/kern/queue.h:384-388 | The list stays well formed and gains the element at its front. |
| SingleTailQueue.Head.InsertTail | src/example-archive/real-world-c-changes/freebsd-src/2b86f9d6d013a9ad8b1f8d03286018e785d5b3f6/sys/kern/queue.h:390-394 | The list stays well formed and gains the element at its end. |
| SingleTailQueue.Head.InsertAfter | src/example-archive/real-world-c-changes/freebsd-src/2b86f9d6d013a9ad8b1f8d03286018e785d5b3f6/sys/kern/queue.h:378-382 | The list stays well formed and gains the element right behind the given one. |
| SingleTailQueue.Head.RemoveHead | src/example-archive/real-world-c-changes/freebsd-src/2b86f9d6d013a9ad8b1f8d03286018e785d5b3f6/sys/kern/queue.h:423-427 | The list loses its first element. |
| SingleTailQueue.Head.RemoveAfter | src/example-archive/real-world-c-changes/freebsd-src/2b86f9d6d013a9ad8b1f8d03286018e785d5b3f6/sys/kern/queue.h:417-421 | The list loses the element behind the given one. |
| SingleTailQueue.Head.BypassedIsValid | src/example-archive/real-world-c-changes/freebsd-src/2b86f9d6d013a9ad8b1f8d03286018e785d5b3f6/sys/kern/queue.h:403-427 | The changed links of a removal make a well-formed list. |
| SingleTailQueue.Head.Remove | src/example-archive/real-world-c-changes/freebsd-src/2b86f9d6d013a9ad8b1f8d03286018e785d5b3f6/sys/kern/queue.h:403-415 | The search terminates on a well-formed list, which loses exactly the element. |
| SingleTailQueue.Head.JoinedIsValid | src/example-archive/real-world-c-changes/freebsd-src/2b86f9d6d013a9ad8b1f8d03286018e785d5b3f6/sys/kern/queue.h:341-347 | The changed links of a concatenation make a well-formed list. |
| SingleTailQueue.Head.Concat | src/example-archive/real-world-c-changes/freebsd-src/2b86f9d6d013a9ad8b1f8d03286018e785d5b3f6/sys/kern/queue.h:341-347 | The first list is the concatenation, the second is empty. |
| SingleTailQueue.Head.Swap | src/example-archive/real-world-c-changes/freebsd-src/2b86f9d6d013a9ad8b1f8d03286018e785d5b3f6/sys/kern/queue.h:429-440 | The two lists exchange their contents. |
| CkReaders.WriterKeeps | src/example-archive/real-world-c-changes/freebsd-src/2b86f9d6d013a9ad8b1f8d03286018e785d5b3f6/sys/kern/ck_queue.h:171-213 | Every single store of an insertion or removal keeps the invariant of the shared structure, also in the middle of a macro. |
| CkReaders.ReaderKeeps | src/example-archive/real-world-c-changes/freebsd-src/2b86f9d6d013a9ad8b1f8d03286018e785d5b3f6/sys/kern/ck_queue.h:151-164 | Every load of a reader keeps its invariant: visited nodes in list order, nothing missed. |
| CkReaders.WriterKeepsReader | src/example-archive/real-world-c-changes/freebsd-src/2b86f9d6d013a9ad8b1f8d03286018e785d5b3f6/sys/kern/ck_queue.h:171-213 | No store of the writer disturbs a reader, wherever it is, even on a removed node. |
| CkReaders.RunKeeps | src/example-archive/real-world-c-changes/freebsd-src/2b86f9d6d013a9ad8b1f8d03286018e785d5b3f6/sys/kern/ck_queue.h:287-336 | Both invariants hold in every state of every interleaving of one writer and any number of readers. |
| CkReaders.TraversalIsSound | src/example-archive/real-world-c-changes/freebsd-src/2b86f9d6d013a9ad8b1f8d03286018e785d5b3f6/sys/kern/ck_queue.h:151-164 | A finished reader visited each node at most once, only nodes that were in the list at some moment of its own traversal, all nodes that were in it throughout, and these in list order. |
| CkReaders.SeenWasLinked | src/example-archive/real-world-c-changes/freebsd-src/2b86f9d6d013a9ad8b1f8d03286018e785d5b3f6/sys/kern/ck_queue.h:151-164 | Whatever a reader can reach from its start on, also over removed nodes, was in the list at some moment since then. |
| CkReaders.LoadAdvances | src/example-archive/real-world-c-changes/freebsd-src/2b86f9d6d013a9ad8b1f8d03286018e785d5b3f6/sys/kern/ck_queue.h:265-279 | Any load of any reader, in whichever phase of FOREACH or FOREACH_SAFE, brings it nearer to its end and leaves unchanged what it will have visited then. |
| CkReaders.ReaderCanGoOn | src/example-archive/real-world-c-changes/freebsd-src/2b86f9d6d013a9ad8b1f8d03286018e785d5b3f6/sys/kern/ck_queue.h:265-279 | A reader that is not done always has a load to do. |
| CkReaders.ReadersFinish | src/example-archive/real-world-c-changes/freebsd-src/2b86f9d6d013a9ad8b1f8d03286018e785d5b3f6/sys/kern/ck_queue.h:265-279 | From any state of any run on in which the writer stands still: however the readers load and interleave, each is done after a number of loads fixed by its position, and has then visited exactly what was ahead of it, in order. |
| CkReaders.QuietTraversal | src/example-archive/real-world-c-changes/freebsd-src/2b86f9d6d013a9ad8b1f8d03286018e785d5b3f6/sys/kern/ck_queue.h:265-279 | In any run, a traversal that starts and ends while the writer stands still visits exactly the contents of the list in order. |
| CkReaders.PublishInserts | src/example-archive/real-world-c-changes/freebsd-src/2b86f9d6d013a9ad8b1f8d03286018e785d5b3f6/sys/kern/ck_queue.h:176-186 | The publishing store inserts the node at once, right behind its cell, and changes nothing else. |
| CkReaders.UnlinkRemoves | src/example-archive/real-world-c-changes/freebsd-src/2b86f9d6d013a9ad8b1f8d03286018e785d5b3f6/sys/kern/ck_queue.h:194-213 | The unlinking store removes exactly the node behind its cell. |
| CkReaders.ContentsAreLinked | src/example-archive/real-world-c-changes/freebsd-src/2b86f9d6d013a9ad8b1f8d03286018e785d5b3f6/sys/kern/ck_queue.h:151-154 | Following the pointers from the head gives exactly the linked nodes, in order. |
| CkReaders.TailIsLast | src/example-archive/real-world-c-changes/freebsd-src/2b86f9d6d013a9ad8b1f8d03286018e785d5b3f6/sys/kern/ck_queue.h:287-308 | Between macros the tail pointer of a CK_STAILQ names the last next field. |
| CkReaders.OtherStoresKeepContents | src/example-archive/real-world-c-changes/freebsd-src/2b86f9d6d013a9ad8b1f8d03286018e785d5b3f6/sys/kern/ck_queue.h:287-308 | The private store before and the tail store after the publishing store leave the contents alone. |
| CkReaders.HolderUnique | src/example-archive/real-world-c-changes/freebsd-src/2b86f9d6d013a9ad8b1f8d03286018e785d5b3f6/sys/kern/ck_queue.h:199-208 | At most one pointer of the list holds a given node. |
| CkReaders.FindHolder | src/example-archive/real-world-c-changes/freebsd-src/2b86f9d6d013a9ad8b1f8d03286018e785d5b3f6/sys/kern/ck_queue.h:199-208 | The search loop of REMOVE terminates at the cell that holds the element. |
| Runway.TickKeepsValid | src/examples/runway/funcs2.c:121-204 | A tick keeps the validity of the state. |
| Runway.TickAdmits | src/examples/runway/funcs2.c:121-204 | A tick admits exactly one plane if the runway is free and a plane waits, else none. |
| Runway.TickModes | src/examples/runway/funcs2.c:136-203 | The modes after a tick of a valid state: on a busy runway they stay; on a free one the active mode stays exactly while it can take a plane, and else the other follows; with neither active, arrival mode follows unless only departures wait. |
| Runway.TickCounters | src/examples/runway/funcs2.c:121-204 | The two counters after a tick: six ticks for each admission, and admissions counted anew after each change of mode, while the other queue waits. |
| Runway.RunKeepsValid | src/examples/runway/valid_state.h:2-18 | Every state of every run from a valid state, with planes joining between ticks, is valid. |
| Runway.PlanesConserved | src/examples/runway/funcs2.c:41-85 | Planes waiting at the end are those at the start plus those that joined less those admitted, for each queue. |
| Runway.AdmissionsAreSpaced | src/examples/runway/funcs2.c:136-147 | Two admissions are at least six ticks apart. |
| Runway.ModeDWithin | src/examples/runway/funcs2.c:160-184 | In arrival mode a waiting departure sees its mode within the bound that runway time and plane counter give, at most 24 ticks, whatever joins. |
| Runway.ModeAWithin | src/examples/runway/funcs2.c:160-184 | In departure mode a waiting arrival sees its mode within the same bound, whatever joins. |
| Runway.ModeDSoon | src/examples/runway/funcs2.c:121-204 | From any state of any run, also before any mode is active: a plane waiting to depart sees departure mode within 24 ticks, whatever joins. |
| Runway.ModeASoon | src/examples/runway/funcs2.c:121-204 | From any state of any run, also before any mode is active: a plane waiting to arrive sees arrival mode within 24 ticks, whatever joins. |
| Runway.NextArrival | src/examples/runway/funcs2.c:148-153 | While a plane waits to arrive, an arrival is admitted within its bound, at most 24 ticks. |
| Runway.NextDeparture | src/examples/runway/funcs2.c:154-159 | While a plane waits to depart, a departure is admitted within 24 ticks. |
| Runway.ArrivalsServed | src/examples/runway/funcs2.c:121-204 | If n planes wait to arrive, at least n arrivals are admitted within 24 n ticks. |
| Runway.DeparturesServed | src/examples/runway/funcs2.c:121-204 | If n planes wait to depart, at least n departures are admitted within 24 n ticks. |
| Runway.BoundIsTight | src/examples/runway/funcs2.c:121-204 | There is a day, from the initial state, on which a departure waits all of 24 ticks for its mode. |
| Queens.JoinsIsPeaceful | src/example-archive/c-testsuite/broken/error-proof/00040.err1.c:8-27 | Adding queens to a peaceful board without new attacks is the same as a peaceful union. |
| Queens.CountCell | src/example-archive/c-testsuite/broken/error-proof/00040.err1.c:36-43 | The completions are those that leave a cell empty and, if it is not attacked, those of the board with a queen on it. |
| Queens.CountStep | src/example-archive/c-testsuite/broken/error-proof/00040.err1.c:38-42 | The number of completions from a cell on is that from the next cell on, plus that with a queen on it if it is not attacked. |
| Queens.SolutionsAre | src/example-archive/c-testsuite/broken/error-proof/00040.err1.c:8-27 | The solutions: as many queens as rows, on the board, no two with the same column, row, sum or difference of coordinates. |
| Queens.CompletionsAre | src/example-archive/c-testsuite/broken/error-proof/00040.err1.c:29-46 | The completions: that many further queens on cells from the given one on, no two of all with the same column, row, sum or difference. |
| Queens.SeesAttacks | src/example-archive/c-testsuite/broken/error-proof/00040.err1.c:14-25 | Some round of the test looks at a cell if and only if that cell is attacked. |
| Queens.Board.Chk | src/example-archive/c-testsuite/broken/error-proof/00040.err1.c:8-27 | The test is zero if and only if no queen shares a row, column or diagonal with the cell. |
| Queens.Board.Go | src/example-archive/c-testsuite/broken/error-proof/00040.err1.c:29-46 | The counter grows by the number of sets of size - n cells from (x, y) on that complete the board peacefully, each counted once; the board is left as it was found. |
| Queens.Board.GoRow | src/example-archive/c-testsuite/broken/error-proof/00040.err1.c:37-42 | The rest of one row accounts for the completions from its start less those from the next row on. |
| Queens.Board.TryCell | src/example-archive/c-testsuite/broken/error-proof/00040.err1.c:38-42 | One cell accounts for the completions from it on less those from the next cell on. |
| Queens.CountSolutions | src/example-archive/c-testsuite/broken/error-proof/00040.err1.c:48-57 | Started on the empty board the counter is the number of solutions. |
| Hanoi.HoldsUnique | src/example-archive/c-testsuite/broken/error-cerberus/00181.err2.c:69-80 | An array holds at most one tower, so the description of a tower is complete. |
| Hanoi.Move | src/example-archive/c-testsuite/broken/error-cerberus/00181.err2.c:67-80 | The top disk of the source becomes the top disk of the destination; both searches stay on the board. |
| Hanoi.Hanoi | src/example-archive/c-testsuite/broken/error-cerberus/00181.err2.c:83-98 | Exactly the n top disks change place, in order, and every other disk stays; the 2^n - 1 moves made are legal whatever larger disks there are, and wherever. |
| Hanoi.Solve | src/example-archive/c-testsuite/broken/error-cerberus/00181.err2.c:100-120 | The whole tower is moved by a legal play, and no legal play is shorter. |
| HanoiGame.MovesTake | src/example-archive/c-testsuite/broken/error-cerberus/00181.err2.c:83-98 | The moves of the recursive solution are a legal play that takes the pile to the other peg. |
| HanoiGame.PlayAmongLarger | src/example-archive/c-testsuite/broken/error-cerberus/00181.err2.c:83-98 | A legal play stays legal, and does the same, when there are larger disks on any pegs. |
| HanoiGame.MovesTakeAmongLarger | src/example-archive/c-testsuite/broken/error-cerberus/00181.err2.c:83-98 | The moves of the recursive solution are legal and take just the pile over, whatever larger disks there are, and wherever. |
| HanoiGame.AtLeast | src/example-archive/c-testsuite/broken/error-cerberus/00181.err2.c:83-98 | Taking a pile of n disks to another peg needs 2^n - 1 moves of these disks, in any legal play, wherever the other disks are. |
| HanoiGame.PlaysAreLong | src/example-archive/c-testsuite/broken/error-cerberus/00181.err2.c:83-98 | No legal play that takes a pile of n disks to another peg has fewer than 2^n - 1 moves. |
| HanoiGame.MovesAreOptimal | src/example-archive/c-testsuite/broken/error-cerberus/00181.err2.c:83-98 | No legal play that takes the pile to the other peg is shorter than the recursive solution. |
| Quicksort.Sorter.Swap | src/example-archive/c-testsuite/broken/error-cerberus/00176.err2.c:5-11 | Two positions are exchanged, which rearranges the slice. |
| Quicksort.Sorter.Partition | src/example-archive/c-testsuite/broken/error-cerberus/00176.err2.c:13-34 | The slice is rearranged around the returned index: smaller before it, not smaller behind it. |
| Quicksort.Sorter.Sort | src/example-archive/c-testsuite/broken/error-cerberus/00176.err2.c:36-45 | The slice is sorted and rearranged in place; nothing outside it changes; the recursion ends. |
| Quicksort.SortedHalves | src/example-archive/c-testsuite/broken/error-cerberus/00176.err2.c:42-44 | Two sorted parts around the pivot are a sorted rearrangement of the slice. |
| Quicksort.SortedMeans | src/example-archive/c-testsuite/broken/error-cerberus/00176.err2.c:36-45 | A sorted and rearranged slice: its elements ascend, and the whole array is a permutation of what it was. |
| Salsa20.QuarterBijective | src/example-archive/SAW/broken/error-cerberus/00008.salsa20.c:95-101 | The quarter round has an explicit inverse. |
| Salsa20.DoubleRoundBijective | src/example-archive/SAW/broken/error-cerberus/00008.salsa20.c:119-123 | The double round is a bijection on states, with an explicit inverse. |
| Salsa20.RowIsTransposedColumn | src/example-archive/SAW/broken/error-cerberus/00008.salsa20.c:103-117 | The row round is the column round conjugated by transposition, for any quarter round. |
| Salsa20.QuarterRound | src/example-archive/SAW/broken/error-cerberus/00008.salsa20.c:95-101 | In place, on any four different words, the quarter round. |
| Salsa20.RowRound | src/example-archive/SAW/broken/error-cerberus/00008.salsa20.c:103-109 | In place, the row round. |
| Salsa20.ColumnRound | src/example-archive/SAW/broken/error-cerberus/00008.salsa20.c:111-117 | In place, the column round. |
| Salsa20.DoubleRoundInPlace | src/example-archive/SAW/broken/error-cerberus/00008.salsa20.c:119-123 | In place, the double round. |
| Salsa20.LittleEndianInverse | src/example-archive/SAW/broken/error-cerberus/00008.salsa20.c:125-141 | Reader and writer of little-endian words invert each other. |
| Salsa20.WordsOfBytes | src/example-archive/SAW/broken/error-cerberus/00008.salsa20.c:153-154 | Sixteen words are recovered from their sixty-four bytes. |
| Salsa20.BytesOfWords | src/example-archive/SAW/broken/error-cerberus/00008.salsa20.c:159-162 | Sixty-four bytes are recovered from their sixteen words. |
| Salsa20.WriteLittleEndian | src/example-archive/SAW/broken/error-cerberus/00008.salsa20.c:134-141 | Four bytes are written, all others stay. |
| Salsa20.Hash | src/example-archive/SAW/broken/error-cerberus/00008.salsa20.c:143-163 | In place, the hash: ten double rounds on the words, the input added, written back as bytes. |
| Salsa20.Expand32 | src/example-archive/SAW/broken/error-cerberus/00008.salsa20.c:195-223 | The block is the hash of the four constants around the two key halves and the input. |
| Salsa20.CryptTwice | src/example-archive/SAW/broken/error-cerberus/00008.salsa20.c:225-273 | Decryption is encryption. |
| Salsa20.CryptPieces | src/example-archive/SAW/broken/error-cerberus/00008.salsa20.c:225-273 | Processing a message in two pieces is processing it at once, also across the 32-bit wrap. |
| Salsa20.NextPosition | src/example-archive/SAW/broken/error-cerberus/00008.salsa20.c:258-266 | From one byte to the next the block number stays unless a new block begins, also at the wrap. |
| Salsa20.CryptBytes | src/example-archive/SAW/broken/error-cerberus/00008.salsa20.c:249-270 | With one cached block every byte is combined with the pure keystream byte of its own position modulo 2^32. |
| Salsa20.Crypt32 | src/example-archive/SAW/broken/error-cerberus/00008.salsa20.c:225-273 | For every key, nonce, position and buffer the first buflen bytes are those of the pure cipher, the others stay; it fails exactly on a null argument and then changes nothing. |
| Salsa20Vectors.RotlBit | src/example-archive/SAW/broken/error-cerberus/00008.salsa20.c:90-93 | Bit i of a word is bit (i + c) mod 32 of its rotation by c, for every word and every c from 1 to 31. |
| Salsa20Vectors.QuarterVectors | src/example-archive/SAW/broken/error-cerberus/00008.salsa20.c:95-101 | Two quarter rounds of section 3 of the Salsa20 specification, which fix shift amounts and operands. |
| Salsa20Vectors.ColumnWords | src/example-archive/SAW/broken/error-cerberus/00008.salsa20.c:111-117 | Which words each quarter round of a column round reads and writes. |
| Salsa20Vectors.RowWords | src/example-archive/SAW/broken/error-cerberus/00008.salsa20.c:103-109 | Which words each quarter round of a row round reads and writes. |
| Salsa20Vectors.DoubleRoundIs | src/example-archive/SAW/broken/error-cerberus/00008.salsa20.c:119-123 | The sixteen words of a double round from eight quarter rounds. |
| Salsa20Vectors.LittleEndianByte | src/example-archive/SAW/broken/error-cerberus/00008.salsa20.c:125-141 | Byte m of four is byte m of the word, counted from the low end. |
| Salsa20Vectors.HashVector | src/example-archive/SAW/broken/error-cerberus/00008.salsa20.c:143-163 | The hash of the words of the example of section 9: ten double rounds, and the sum. |
| Salsa20Vectors.ExpandedBytes | src/example-archive/SAW/broken/error-cerberus/00008.salsa20.c:195-223 | The expanded block byte by byte: the four constants around key halves and input. |
| Salsa20Vectors.ExpansionVector | src/example-archive/SAW/broken/error-cerberus/00008.salsa20.c:195-223 | The example of section 9 of the Salsa20 specification, from key and input to output bytes. |
| Salsa20Vectors.KeystreamBlock | src/example-archive/SAW/broken/error-cerberus/00008.salsa20.c:249-265 | A keystream block is the hash of the constants, the key, the nonce, the block number as a little-endian word, and four zeros. |
| Salsa20Vectors.CryptByte | src/example-archive/SAW/broken/error-cerberus/00008.salsa20.c:257-270 | Each byte is exclusive-or'd with the byte of the keystream at its own position modulo 2^32. |
| ListMergeSort.Split | src/examples/list/mergesort.c:4-20 | The parts together have the length of the list, and both are shorter if it has two elements. |
| ListMergeSort.SplitElements | src/examples/list/mergesort.c:4-20 | Splitting loses and adds no element. |
| ListMergeSort.MergeElements | src/examples/list/mergesort.c:22-35 | Merging loses and adds no element. |
| ListMergeSort.MergeSorted | src/examples/list/mergesort.c:22-35 | Merging sorted lists gives a sorted list. |
| ListMergeSort.MergeSortSorts | src/examples/list/mergesort.c:37-48 | Merge sort returns a sorted permutation. |
| ListMergeSort.MergeSortAscends | src/examples/list/mergesort.c:37-48 | As sequences: the same elements in ascending order. |
| ListMergeSort.SplitCells | src/examples/list/mergesort.c:56-79 | The cells are relinked into two lists with the contents of the functional split, which share no cell. |
| ListMergeSort.MergeCells | src/examples/list/mergesort.c:81-108 | The cells of both lists are relinked into one list with the contents of the functional merge. |
| ListMergeSort.MergeSortCells | src/examples/list/mergesort.c:110-134 | The result is built from exactly the given cells, has the contents of the functional merge sort, is sorted and a permutation; no element is overwritten. |
| AvTree.LastBelowConcat | src/example-archive/real-world-c-changes/ffmpeg/1bf83b9548957e49d90804a035529085df4b872a/libavutil/tree_after.c:31-46 | The nearest smaller element of a concatenation comes from its parts. |
| AvTree.FirstAboveConcat | src/example-archive/real-world-c-changes/ffmpeg/1bf83b9548957e49d90804a035529085df4b872a/libavutil/tree_after.c:31-46 | The nearest greater element of a concatenation comes from its parts. |
| AvTree.NeighboursAtRoot | src/example-archive/real-world-c-changes/ffmpeg/1bf83b9548957e49d90804a035529085df4b872a/libavutil/tree_after.c:34-37 | One comparison at the root tells from which subtree the neighbours of the key come. |
| AvTree.Find | src/example-archive/real-world-c-changes/ffmpeg/1bf83b9548957e49d90804a035529085df4b872a/libavutil/tree_after.c:31-46 | Returns an equal element if and only if there is one; leaves the nearest smaller and greater elements in the array, found or not, and an entry without such an element as it was. |
| AvTree.OrderedConsistent | src/example-archive/real-world-c-changes/ffmpeg/1bf83b9548957e49d90804a035529085df4b872a/libavutil/tree_after.c:31-46 | In a strictly ordered tree every key meets the assumption of the search. |
| AvTree.GreatestSmaller | src/example-archive/real-world-c-changes/ffmpeg/1bf83b9548957e49d90804a035529085df4b872a/libavutil/tree_after.c:36-36 | In a strictly ordered tree entry 0 is the greatest smaller element, or unchanged if there is none. |
| AvTree.LeastGreater | src/example-archive/real-world-c-changes/ffmpeg/1bf83b9548957e49d90804a035529085df4b872a/libavutil/tree_after.c:36-36 | In a strictly ordered tree entry 1 is the least greater element, or unchanged if there is none. |

## Left out

- PPPoE: D-Link broadcast of a PADI with an empty service name, 3COM Ethernet types, MAC address, mode and status messages, which have no effect on sessions.
- PPPoE: allocation failure, mbuf handling, mutexes, logging, packet counters, and the notifications sent to the session's creator (SUCCESS, CLOSE, SESSIONID, ACNAME).
- PPPoE: Ethernet and debug hooks beyond their presence; an Ethernet hook is taken to be connected, and the node's shutdown is not modelled.
- PPPoE: what a search finds in bytes that were not received, which depends on what the memory behind the packet holds; `PppoeNode.Enabled` asks of each packet that the searches its handler makes stay inside.
- PppoeTags.GetTag: only searches that stay within the received bytes (`PppoeTags.SearchInsideIff`).
- PppoeTags.ScanTags: only scans that stay within the received bytes (`PppoeTags.SearchInsideIff`).
- PppoeDriver.PppoeDriver.ReceiveFromHook: only when its searches stay within the received bytes.
- PppoeDriver.PppoeDriver.ReceivePadi: only when its search stays within the received bytes.
- PppoeDriver.PppoeDriver.ReceivePado: only when its searches stay within the received bytes.
- PppoeDriver.PppoeDriver.ReceivePadr: only when its searches stay within the received bytes and, for a first PADR, when some ID is free; else the source does not return.
- PppoeDriver.PppoeDriver.ReceivePads: only when its search stays within the received bytes.
- PppoeDriver.PppoeDriver.Handle: only events that meet these conditions (`PppoeNode.Enabled`).
- PppoeScan.ScanningNode.ReceivePadi: only when its search stays within the received bytes.
- PPPoE: the Ethernet type that a session in PRIMED copies from a packet before it refuses it; the next PADI overwrites it.
- PPPoE: the time-outs and the size of a service name are parameters (ng_pppoe.h is not part of this model), and so is the place at which the framework links a new hook.
- PPPoE: sessions are values in a map of the node, keyed by their address; the lists of the node are sequences. Aliasing and relinking of list entries is in `LinkList` and `TailQueue`.
- PPPoE: `role` of a session and `removing` of a node are history variables; `removing` stands for requests queued in the framework.
- Hook names compared by `strcmp` are strings without a terminator.
- Lists: SLIST, the variants FOREACH_FROM, FOREACH_SAFE (of queue.h), PREVPTR and the debug checks.
- CkReaders: memory ordering beyond program order of each thread; the CK MOVE, SWAP and CONCAT macros, which are not meant to be atomic, and CK_LIST.
- CkReaders: reuse of a removed node, which callers have to defer.
- Salsa20: the 16-byte key expansion, which nothing calls.
- Salsa20.Crypt32: the buffer is not the key array; the source does not say what that would mean.
- Queens, Hanoi, Quicksort: the fixed sizes 8, N and 16 are parameters; integers are unbounded, so an overflow of the solution counter is not modelled; the number 92 itself is not computed.
- Queens.Board.GoRow: with `Board.TryCell` a method of its own, the inner loop and its body in the source.
- Hanoi and Runway: printing and the demonstration runs.
- Runway: a run keeps the counters below INT_MAX (`Runway.InRange`), as the preconditions of `tick` demand; what happens beyond is not modelled.
- AvTree: `av_tree_enumerate`, and insertion, which the source does not show.
- Refcounts, the swap pager, the executor and the name cache, whose code is stripped in the archive, and the small tutorial examples.
