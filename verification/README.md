# Protocols and buffers of jungerl, modelled in Dafny

A model of the parts of jungerl that carry state or arithmetic, with proofs of what they promise.
`dafny verify dfyconfig.toml` checks everything.

* **Links and mailboxes of otp.net.** `links.dfy` is the link table. `link_protocol.dfy` gives
  every operation of mailboxes, node and connections as one atomic step on a node state;
  `link_invariant.dfy`, `link_steps.dfy` and `link_effects.dfy` prove what all runs keep, exactly
  which steps would break it, and what each mailbox receives; `link_delivery.dfy` proves that no
  message is lost, invented or reordered. `otp_node.dfy` has the objects
  themselves, verified against those steps. `mailbox_registry.dfy`, `ids.dfy` and
  `generic_queue.dfy` are the names, the identifier generators and the message queue.
* **The wire of otp.net.** `external_format.dfy` is the external term format as the library
  writes and reads it, `external_roundtrip.dfy` what survives that trip, `external_encodings.dfy`
  how every encoding of a peer is read, `otp_streams.dfy` the two stream classes.
  `dist_messages.dfy`, `dist_peers.dfy` and `dist_connection.dfy` are the messages, those of peers,
  and the receive loop on a socket; `dist_protocol.dfy` is the table of operations of the protocol. `handshake.dfy` is the handshake as two threads over two channels,
  `handshake_wire.dfy` the same over bytes, `handshake_connection.dfy` its send and recv methods.
* **MD4 of esmb.** `md4_spec.dfy` states section 3 of RFC 1320, `md4_known.dfy` what its pieces compute
  and a digest of its test suite, `md4.dfy` is the streaming code.
* **The zlib driver.** `zlib_driver.dfy`, over a codec given by the contract in `zlib_codec.dfy`,
  with the driver queue of `io_vectors.dfy`; `zlib_client.dfy` is the other side of the port, and
  `zlib_runs.dfy` has runs through commands alone.
* **Driver buffers.** `iovec_cursor.dfy` (ErlIOVec) and `serial_port.dfy` (write queue).

Functions and lemmas state what is computed; a class or method is there where the source updates
objects or runs loops, and its contract ties it to the function. Sockets, epmd, the serial device,
zlib and MD5 appear as parameters: how a write or a read ends, which part of the bytes is taken,
what a codec step does, whether a peer can be reached. `StoringCodecIsLawful` and
`HoldingCodecIsLawful` show that the contract of the codec can be met.

## Where the code differs from its documentation

The model follows the code.

* A local `exit(to, reason)` goes out with exitTag, so the receiver loses its half of a link, while
  the comment says that links stay (OtpMbox.cs:479, 503): `LinkEffects.LocalExitBreaks`.
* `link` swallows every exception but IOException and enters the link all the same
  (OtpMbox.cs:572-579): `LinkEffects.SwallowedErrorBreaks`.
* A second name does not supersede the first (OtpNode.cs:276-278, 642-651):
  `MailboxRegistry.RenamedThenClosed`.
* `write_long` never writes more than four bytes of a number (OtpOutputStream.cs:465-495):
  `ExternalRoundTrip.LongRoundTrip`. The unicode branch of `write_string` is never reached.
* `sendExit` writes the reason as a string, the receive loop wants an atom:
  `DistMessages.OwnExitIsGarbage`, `DistPeers.PeerExitIff`.
* `OtpNode.connection(node)` passes no cookie (OtpNode.cs:485-491): `Handshake.NullCookie`.
* The comment on `want_contiguous` (erl_driver_tk.c:102) says the opposite of the code.
* `do_close` of the serial driver keeps the queue, which then blocks the next session:
  `SerialPort.SelectedIff`, `SerialPort.LeftoverBlocks`.
* SET_BUFSZ on a part-filled buffer sends bytes past the checksum: `ZLibDriver.ZLibData.Ctl`,
  `ZLibRuns.ResizeLosesChecksum`.
* SET_BUFSZ on an empty buffer frees it but keeps next_out and avail_out (zlib_drv.c:518-522), and
  DEFLATE_PARAMS opens no new one (zlib_drv.c:436-440): what deflateParams then writes is lost.
  `ZLibDriver.ZLibData.SetBufsz`, `Params` and `Ctl` say exactly when,
  `ZLibRuns.ParamsLosesBytes` is a run. What such a write does to freed memory is not modelled.

## Model

OtpOutputStream.cs is cited in the third column; the second then names the code that calls it.

| member | source | states |
|---|---|---|
| Links.IndexOf | jungerl/lib/otp.net/Otp/Links.cs:80-91 | find: the first slot whose link joins the two pids in either order, -1 exactly if there is none |
| Links.EndsIffJoins | jungerl/lib/otp.net/Otp/Link.cs:49-53 | Link.equals is equality of unordered pairs |
| Links.PairsIffHas | jungerl/lib/otp.net/Otp/Links.cs:72-78 | exists is membership in the set of unordered pairs |
| Links.AddHas | jungerl/lib/otp.net/Otp/Links.cs:38-55 | after addLink exactly one more unordered pair is found |
| Links.AddNoDup | jungerl/lib/otp.net/Otp/Links.cs:38-55 | no pair is ever stored twice, in either order |
| Links.RemoveKeeps | jungerl/lib/otp.net/Otp/Links.cs:57-70 | filling the hole with the last link loses no other link and makes no duplicate |
| Links.RemoveHas | jungerl/lib/otp.net/Otp/Links.cs:57-70 | after removeLink exactly that pair is gone |
| Links.TableRefinesPairSet | jungerl/lib/otp.net/Otp/Links.cs:38-70 | addLink and removeLink are insertion into and removal from a set of unordered pairs |
| Links.CountIsPairs | jungerl/lib/otp.net/Otp/Links.cs:93-97 | count is the number of pairs |
| Links.LinksTable.constructor | jungerl/lib/otp.net/Otp/Links.cs:28-36 | an empty table with all slots null |
| Links.LinksTable.Find | jungerl/lib/otp.net/Otp/Links.cs:80-91 | the search loop computes IndexOf |
| Links.LinksTable.Grow | jungerl/lib/otp.net/Otp/Links.cs:46-51 | regrowth doubles the slots and keeps every link; the slots past count are null |
| Links.LinksTable.AddLink | jungerl/lib/otp.net/Otp/Links.cs:38-55 | through any number of regrowths the pair set gains exactly the new pair; only a table made without slots throws, and is left with a count of 1 |
| Links.LinksTable.RemoveLink | jungerl/lib/otp.net/Otp/Links.cs:57-70 | the pair set loses exactly the pair, in place, and the freed slot is null |
| Links.LinksTable.Exists | jungerl/lib/otp.net/Otp/Links.cs:72-78 | true exactly if the unordered pair is in the set |
| Links.LinksTable.Count | jungerl/lib/otp.net/Otp/Links.cs:93-97 | the size of the pair set |
| Links.LinksTable.LocalPids | jungerl/lib/otp.net/Otp/Links.cs:99-115 | the local ends in slot order, null for an empty table |
| Links.LinksTable.ClearLinks | jungerl/lib/otp.net/Otp/Links.cs:135-152 | hands out all links in order and leaves an empty table of null slots |
| OtpIds.OtpLocalNode.constructor | jungerl/lib/otp.net/Otp/OtpLocalNode.cs:63-74 | the counters start so that the first identifier of each kind is number 0 |
| OtpIds.OtpLocalNode.CreatePid | jungerl/lib/otp.net/Otp/OtpLocalNode.cs:202-222 | the k-th pid is k+1 in the mixed radix 2^15, 2^3 |
| OtpIds.OtpLocalNode.CreatePort | jungerl/lib/otp.net/Otp/OtpLocalNode.cs:234-246 | the k-th port is k+1 modulo 2^18 |
| OtpIds.OtpLocalNode.CreateRef | jungerl/lib/otp.net/Otp/OtpLocalNode.cs:257-278 | the k-th reference is k+1 in the mixed radix 2^18, 2^32, 2^32, the upper words as wrapping C# ints |
| OtpIds.IncrementIsSigned | jungerl/lib/otp.net/Otp/OtpLocalNode.cs:257-278 | the wrapping increment of a word is the signed view of the unsigned successor |
| OtpIds.PidsRepeat | jungerl/lib/otp.net/Otp/OtpLocalNode.cs:202-246 | two pids (ports) of a node are equal if and only if a multiple of 2^18 lies between their numbers; any 2^18 consecutive ones are distinct |
| OtpIds.RefsRepeat | jungerl/lib/otp.net/Otp/OtpLocalNode.cs:257-278 | two references are equal if and only if a multiple of 2^82 lies between them |
| OtpIds.MakersApart | jungerl/lib/otp.net/Otp/OtpLocalNode.cs:202-278 | identifiers of two nodes, or of one with another creation, are equal only if name, the two bits of the creation and the number agree |
| OtpIds.SameThreeDigits | jungerl/lib/otp.net/Otp/OtpLocalNode.cs:257-278 | three digits of a mixed radix number agree exactly if the numbers agree modulo the product of the radices |
| LinkInvariant.CloseKeeps | jungerl/lib/otp.net/Otp/OtpCookedConnection.cs:204-208 | closing a connection keeps the invariant and removes exactly the links over it |
| LinkInvariant.ConnectionKeeps | jungerl/lib/otp.net/Otp/OtpNode.cs:493-525 | looking up or setting up a connection keeps the invariant |
| LinkInvariant.SendKeeps | jungerl/lib/otp.net/Otp/AbstractConnection.cs:998-1029 | writing a message, or failing to in any of the three ways, keeps the invariant |
| LinkInvariant.AddBothKeeps | jungerl/lib/otp.net/Otp/OtpCookedConnection.cs:246-260 | entering a pair in mailbox and connection table together keeps the invariant |
| LinkInvariant.RemoveBothKeeps | jungerl/lib/otp.net/Otp/OtpCookedConnection.cs:265-278 | removing it from both keeps the invariant |
| LinkSteps.CreateKeepsIff | jungerl/lib/otp.net/Otp/OtpNode.cs:578-584 | making a mailbox keeps the invariant if and only if no link names the new pid already |
| LinkSteps.PidsStayFresh | jungerl/lib/otp.net/Otp/OtpLocalNode.cs:202-222 | the new pid is named by no link as long as fewer than 2^18 were made |
| LinkSteps.LinkLocalIff | jungerl/lib/otp.net/Otp/OtpMbox.cs:550-560 | a local link keeps the invariant if and only if the caller is live or the target is not; between live mailboxes both halves are there |
| LinkSteps.LinkRemoteIff | jungerl/lib/otp.net/Otp/OtpMbox.cs:561-579 | a remote link keeps the invariant if and only if no live caller comes out of a swallowed exception with a link that the connection does not have: none if the exception closed the connection, an old one at most if it did not |
| LinkSteps.UnlinkKeeps | jungerl/lib/otp.net/Otp/OtpMbox.cs:593-614 | unlink always keeps the invariant, and the link is gone |
| LinkSteps.ExitIff | jungerl/lib/otp.net/Otp/OtpMbox.cs:496-527 | exit(to, reason) keeps the invariant if and only if the two are not linked mailboxes of one node |
| LinkSteps.SendToKeeps | jungerl/lib/otp.net/Otp/OtpMbox.cs:306-327 | sending a message keeps the invariant |
| LinkSteps.CloseMboxKeeps | jungerl/lib/otp.net/Otp/OtpNode.cs:245-253 | closing a mailbox keeps the invariant and leaves no link to it |
| LinkSteps.CloseAgainKeeps | jungerl/lib/otp.net/Otp/OtpNode.cs:245-253 | closing a closed mailbox once more, with whatever links it was given since, keeps the invariant |
| LinkSteps.ExitLinksKeep | jungerl/lib/otp.net/Otp/OtpMbox.cs:759-772 | each pass of breakLinks removes the back link of the link it handles |
| LinkSteps.IncomingHonestKeeps | jungerl/lib/otp.net/Otp/OtpCookedConnection.cs:132-181 | a message whose sender is on the peer keeps the invariant |
| LinkSteps.IncomingForgedIff | jungerl/lib/otp.net/Otp/OtpCookedConnection.cs:132-181 | a message naming a sender on a third node keeps the invariant if and only if it changes no single half of a link |
| LinkSteps.LostIff | jungerl/lib/otp.net/Otp/OtpCookedConnection.cs:116-120 | the end of a reader thread keeps the invariant if and only if the registered object of that name is this one or not connected |
| LinkSteps.StepKeepsInvIffAllowed | jungerl/lib/otp.net/Otp/OtpCookedConnection.cs:132-303 | for every operation: the invariant survives the step if and only if the step is allowed |
| LinkSteps.ReachableInv | jungerl/lib/otp.net/Otp/OtpMbox.cs:550-614 | in every state reachable by allowed steps a live mailbox has a link to a remote pid exactly if the table of that peer's connection has the pair, local links are symmetric, and no live mailbox is linked to a dead local one; and every enabled, allowed step can be taken |
| LinkEffects.ConnectionLoss | jungerl/lib/otp.net/Otp/OtpCookedConnection.cs:283-303 | closing a connection queues at each live mailbox exactly one "noconnection" exit per link it had over it and nothing else |
| LinkEffects.ConnectionLossLinks | jungerl/lib/otp.net/Otp/OtpCookedConnection.cs:204-208 | afterwards no live mailbox is linked to that peer, all other links are there, and a second close changes nothing |
| LinkEffects.MailboxClose | jungerl/lib/otp.net/Otp/OtpMbox.cs:759-772 | closing a mailbox queues exactly one "normal" exit at each other live mailbox it was linked to and none elsewhere, whatever its connections do meanwhile |
| LinkEffects.MailboxCloseAgain | jungerl/lib/otp.net/Otp/OtpMbox.cs:759-772 | closing a closed mailbox once more queues exactly one "normal" exit at each live mailbox it was linked to since, and none elsewhere |
| LinkEffects.LinkResult | jungerl/lib/otp.net/Otp/OtpMbox.cs:550-579 | for a live mailbox, link returns normally exactly if the link is there afterwards |
| LinkEffects.RefusedLink | jungerl/lib/otp.net/Otp/OtpCookedConnection.cs:144-158 | a link request for nobody leaves the connection open if and only if the answer could be written, and the reader thread and the registered name if and only if no other exception than IOException was thrown |
| LinkEffects.SwallowedErrorBreaks | jungerl/lib/otp.net/Otp/OtpMbox.cs:561-579 | a concrete run: the write of a link request throws something else than IOException; mailbox and connection table disagree |
| LinkEffects.LocalExitBreaks | jungerl/lib/otp.net/Otp/OtpMbox.cs:496-504 | exit between two linked local mailboxes drops the receiver's half only, against the comment at line 479 |
| LinkDelivery.StepCarried | jungerl/lib/otp.net/Otp/OtpMbox.cs:722-753 | every operation puts on the queues, in order, exactly the messages it has for them that are neither link nor unlink, and on each socket exactly the messages it sends there: their tags, ends and reasons are stated apart from the operations |
| LinkDelivery.RunInOrder | jungerl/lib/otp.net/Otp/OtpMbox.cs:266-294 | over every run, allowed or not: what a live mailbox has handed out followed by its queue is, in order, exactly what was posted to it and is neither link nor unlink; what is on a socket is, in order, what was sent there |
| LinkDelivery.ClosingCarried | jungerl/lib/otp.net/Otp/OtpMbox.cs:759-772 | a closing mailbox sends an exit with reason normal to the other end of each link, in order, whatever connections it loses on the way |
| LinkDelivery.IncomingCarried | jungerl/lib/otp.net/Otp/OtpCookedConnection.cs:132-181 | what arrives is posted; a link request for nobody is answered with an exit with reason noproc |
| OtpNodes.OtpNode.constructor | jungerl/lib/otp.net/Otp/OtpNode.cs:152-166 | a node without mailboxes and connections |
| OtpNodes.OtpNode.CreateMbox | jungerl/lib/otp.net/Otp/OtpNode.cs:578-584 | implements LinkProtocol.CreateMbox with the pid generator of OtpIds |
| OtpNodes.OtpNode.Deliver | jungerl/lib/otp.net/Otp/OtpNode.cs:438-469 | implements LinkProtocol.Deliver |
| OtpNodes.OtpNode.Connection | jungerl/lib/otp.net/Otp/OtpNode.cs:493-525 | implements LinkProtocol.Connection |
| OtpNodes.OtpNode.CloseMbox | jungerl/lib/otp.net/Otp/OtpNode.cs:245-253 | implements LinkProtocol.CloseMbox, and LinkProtocol.CloseAgain on a mailbox that is closed already |
| OtpNodes.OtpNode.DeliverError | jungerl/lib/otp.net/Otp/OtpNode.cs:476-480 | implements the registry part of LinkProtocol.Lost |
| OtpNodes.OtpMbox.Deliver | jungerl/lib/otp.net/Otp/OtpMbox.cs:722-753 | implements LinkProtocol.MboxDeliver |
| OtpNodes.OtpMbox.Link | jungerl/lib/otp.net/Otp/OtpMbox.cs:550-579 | implements LinkProtocol.Link_ |
| OtpNodes.OtpMbox.Unlink | jungerl/lib/otp.net/Otp/OtpMbox.cs:593-614 | implements LinkProtocol.Unlink |
| OtpNodes.OtpMbox.SendTo | jungerl/lib/otp.net/Otp/OtpMbox.cs:306-327 | implements LinkProtocol.SendTo |
| OtpNodes.OtpMbox.ReceiveMsg | jungerl/lib/otp.net/Otp/OtpMbox.cs:266-294 | hands out the first message waiting, and implements LinkProtocol.Receive |
| OtpNodes.OtpMbox.Exit | jungerl/lib/otp.net/Otp/OtpMbox.cs:496-527 | implements LinkProtocol.Exit |
| OtpNodes.OtpMbox.BreakLinks | jungerl/lib/otp.net/Otp/OtpMbox.cs:759-772 | the loop over the cleared links implements LinkProtocol.ExitLinks |
| OtpNodes.OtpCookedConnection.Close | jungerl/lib/otp.net/Otp/OtpCookedConnection.cs:204-208 | close with breakLinks implements LinkProtocol.Close |
| OtpNodes.OtpCookedConnection.Write | jungerl/lib/otp.net/Otp/AbstractConnection.cs:998-1029 | implements LinkProtocol.Send |
| OtpNodes.OtpCookedConnection.Link | jungerl/lib/otp.net/Otp/OtpCookedConnection.cs:246-260 | the pair is entered only after the request was written |
| OtpNodes.OtpCookedConnection.Unlink | jungerl/lib/otp.net/Otp/OtpCookedConnection.cs:265-278 | the pair is removed before the message is written, whether or not that succeeds |
| OtpNodes.OtpCookedConnection.Deliver | jungerl/lib/otp.net/Otp/OtpCookedConnection.cs:132-181 | implements LinkProtocol.Incoming |
| OtpNodes.OtpCookedConnection.ReaderEnds | jungerl/lib/otp.net/Otp/OtpCookedConnection.cs:116-120 | implements LinkProtocol.Lost |
| MailboxRegistry.Mailboxes.Create | jungerl/lib/otp.net/Otp/OtpNode.cs:562-584 | null exactly if the name is taken; coherent tables stay so if and only if the pid is not that of a named mailbox |
| MailboxRegistry.Mailboxes.Register | jungerl/lib/otp.net/Otp/OtpNode.cs:632-653 | coherent tables stay so if and only if the call was refused, took the name from a mailbox that has it, or gave one to a live mailbox that had none |
| MailboxRegistry.Mailboxes.Close | jungerl/lib/otp.net/Otp/OtpNode.cs:693-698 | pid and current name disappear; coherent tables stay so, also when a mailbox is closed again |
| MailboxRegistry.Mailboxes.NameFound | jungerl/lib/otp.net/Otp/OtpNode.cs:659-671 | in coherent tables a name is found exactly if a live mailbox has it |
| MailboxRegistry.RenamedThenClosed | jungerl/lib/otp.net/Otp/OtpNode.cs:632-653 | a concrete run: a mailbox registered under a second name is found under the first after it has been closed |
| GenericQueues.GenericQueue.Put | jungerl/lib/otp.net/Otp/GenericQueue.cs:75-97 | appends to the one acyclic chain from head to tail; count is its length; it is the Put of the thread model |
| GenericQueues.GenericQueue.TryGet | jungerl/lib/otp.net/Otp/GenericQueue.cs:177-195 | takes the first object, null exactly if there is none; it is the Poll of the thread model |
| GenericQueues.GenericQueue.Close | jungerl/lib/otp.net/Otp/GenericQueue.cs:58-70 | empties and closes the queue, as the Close of the thread model |
| GenericQueues.GenericQueue.Flush | jungerl/lib/otp.net/Otp/GenericQueue.cs:51-56 | empties and reopens the queue, as the Flush of the thread model |
| GenericQueues.TurnIsPoll | jungerl/lib/otp.net/Otp/GenericQueue.cs:99-118 | a turn of the waiting loop is a poll, after which an unsuccessful getter waits if the queue is open |
| GenericQueues.GenericQueue.GetCount | jungerl/lib/otp.net/Otp/GenericQueue.cs:197-203 | the number of objects in the queue |
| GenericQueues.RunIsFifo | jungerl/lib/otp.net/Otp/GenericQueue.cs:75-195 | over every interleaving of threads: what left the queue followed by what is in it is what the puts of the run put, in order, no getter is left waiting un-pulsed while the queue is non-empty, and the queue is closed from a close to the next flush |
| GenericQueues.StepIsFifo | jungerl/lib/otp.net/Otp/GenericQueue.cs:99-118 | every critical section keeps that, only flush and close drop objects, and nobody starts to wait on a closed queue |
| GenericQueues.PendingUntilServed | jungerl/lib/otp.net/Otp/GenericQueue.cs:99-118 | a get is pending until it has the first object or has found the queue closed and empty; puts, wakes and other getters change nothing about it |
| ExternalRoundTrip.IntRead | jungerl/lib/otp.net/Otp/OtpInputStream.cs:610-612 | the 32-bit encoding of any integer is read as that integer |
| ExternalRoundTrip.LongRoundTrip | jungerl/lib/otp.net/Otp/OtpInputStream.cs:589-646 | a number written by write_long (OtpOutputStream.cs:465-495) is read back if and only if its magnitude fits 32 bits; the reader always stops right behind it |
| ExternalRoundTrip.OtherIntegerEncodings | jungerl/lib/otp.net/Otp/OtpInputStream.cs:616-637 | every small big of up to eight bytes is read as its number, over the whole signed 64-bit range |
| ExternalRoundTrip.AtomRoundTrip | jungerl/lib/otp.net/Otp/OtpInputStream.cs:286-309 | an atom comes back if and only if it is ASCII and at most 255 long |
| ExternalRoundTrip.StringRoundTrip | jungerl/lib/otp.net/Otp/OtpInputStream.cs:897-940 | a string comes back from read_string if and only if its characters fit a byte and its length two bytes |
| ExternalRoundTrip.OtherStringEncoding | jungerl/lib/otp.net/Otp/OtpInputStream.cs:925-934 | a string written as a list of its character codes, as write_long writes them, is read as that string |
| ExternalRoundTrip.PidRoundTrip | jungerl/lib/otp.net/Otp/OtpInputStream.cs:777-802 | a pid comes back if and only if its node name survives |
| ExternalRoundTrip.PortRoundTrip | jungerl/lib/otp.net/Otp/OtpInputStream.cs:812-835 | a port comes back if and only if its node name survives |
| ExternalRoundTrip.OldRefRoundTrip | jungerl/lib/otp.net/Otp/OtpInputStream.cs:860-864 | an old style reference comes back if and only if its node name survives |
| ExternalRoundTrip.NewRefRoundTrip | jungerl/lib/otp.net/Otp/OtpInputStream.cs:868-879 | a new style reference comes back if and only if its node name survives |
| ExternalRoundTrip.BinaryRoundTrip | jungerl/lib/otp.net/Otp/OtpInputStream.cs:319-342 | a binary comes back |
| ExternalRoundTrip.TermRoundTrip | jungerl/lib/otp.net/Otp/OtpInputStream.cs:950-1005 | of what this library writes, for every term and every suffix: a faithful term is read back and the stream stands at the suffix; an unfaithful one is never read as itself |
| ExternalRoundTrip.ManyRoundTrip | jungerl/lib/otp.net/Otp/OtpInputStream.cs:950-1005 | the same for the elements of a list or tuple that this library writes |
| ExternalRoundTrip.ListRoundTrip | jungerl/lib/otp.net/Otp/Erlang/List.cs:134-152 | the same for its lists, with the nil behind a non-empty one |
| ExternalRoundTrip.TupleRoundTrip | jungerl/lib/otp.net/Otp/Erlang/Tuple.cs:147-160 | the same for its tuples |
| ExternalRoundTrip.EmptyTuple | jungerl/lib/otp.net/Otp/Erlang/Tuple.cs:147-160 | the empty tuple comes back as a tuple object without element array |
| ExternalRoundTrip.VersionSkipped | jungerl/lib/otp.net/Otp/OtpInputStream.cs:950-1005 | a version byte in front of a term makes no difference |
| ExternalRoundTrip.TermRoundTripIff | jungerl/lib/otp.net/Otp/OtpInputStream.cs:950-1005 | a term survives being written by this library and read, with or without version byte, if and only if it is faithful |
| ExternalRoundTrip.GeneratedIdsSurvive | jungerl/lib/otp.net/Otp/OtpInputStream.cs:777-887 | every identifier a node makes survives the masks of the decoder |
| ExternalRoundTrip.ConstructedRepresentable | jungerl/lib/otp.net/Otp/Erlang/Pid.cs:85-91 | whatever numbers the constructors of pids, ports and references are given, what they make can be written |
| ExternalRoundTrip.PlainRepresentable | jungerl/lib/otp.net/Otp/Erlang/Atom.cs:45-57 | every 64-bit number, string, atom of at most 255 characters, binary and list or tuple of such terms can be written |
| ExternalEncodings.AtomSeen | jungerl/lib/otp.net/Otp/OtpInputStream.cs:286-309 | every atom of at most 255 characters is read, with a question mark for each character that is not ASCII, and the stream stands right behind it |
| ExternalEncodings.PidRead | jungerl/lib/otp.net/Otp/OtpInputStream.cs:777-802 | every pid of the format is read, whatever its unused bits |
| ExternalEncodings.PortRead | jungerl/lib/otp.net/Otp/OtpInputStream.cs:812-835 | every port of the format is read, whatever its unused bits |
| ExternalEncodings.OldRefRead | jungerl/lib/otp.net/Otp/OtpInputStream.cs:860-864 | every old style reference is read, whatever its unused bits |
| ExternalEncodings.NewRefRead | jungerl/lib/otp.net/Otp/OtpInputStream.cs:868-879 | every new style reference of at least one word is read; its first three words count |
| ExternalEncodings.WordlessRefFails | jungerl/lib/otp.net/Otp/OtpInputStream.cs:868-879 | a reference without words cannot be read |
| ExternalEncodings.TextRead | jungerl/lib/otp.net/Otp/OtpInputStream.cs:913-920 | every string of the format is read, the empty one included |
| ExternalEncodings.IntegerRead | jungerl/lib/otp.net/Otp/OtpInputStream.cs:589-646 | every integer is read in each of its encodings: one byte, 32 bits, or a small big of up to eight bytes |
| ExternalEncodings.EncodingRead | jungerl/lib/otp.net/Otp/OtpInputStream.cs:950-1005 | for every well-formed term, in whatever encoding the format allows and nested to any depth, with or without version bytes, and every suffix: read_any returns the term and stops exactly at the suffix |
| ExternalEncodings.EncodingsRead | jungerl/lib/otp.net/Otp/Erlang/Tuple.cs:147-160 | the same for the elements of a list or tuple |
| ExternalEncodings.ImproperListFails | jungerl/lib/otp.net/Otp/Erlang/List.cs:134-152 | a list whose tail is no nil cannot be read |
| ExternalEncodings.LongByAny | jungerl/lib/otp.net/Otp/OtpInputStream.cs:589-646 | read_long takes exactly what read_any reads as an integer, and the same number |
| ExternalEncodings.CharsRead | jungerl/lib/otp.net/Otp/OtpInputStream.cs:930-931 | any terms, in any encodings, are read as characters if and only if all are character codes |
| ExternalEncodings.TextListRead | jungerl/lib/otp.net/Otp/OtpInputStream.cs:925-934 | a list in any encoding, with or without version bytes, is read by read_string if and only if all its elements are character codes, and then as the text of these |
| ExternalEncodings.SameValueSameRead | jungerl/lib/otp.net/Otp/OtpInputStream.cs:950-1005 | equivalent encodings of one term are read alike |
| ExternalEncodings.OwnEncoding | jungerl/lib/otp.net/Otp/Erlang/List.cs:241-260 | what this library writes of a faithful term is one of the encodings of the format, whose tags are the numbers of the format, and that of this term |
| OtpStreams.OtpInputStream.Read1 | jungerl/lib/otp.net/Otp/OtpInputStream.cs:135-149 | returns what its function in ExternalFormat returns and leaves the same rest, or throws where that fails |
| OtpStreams.OtpInputStream.Read2BE | jungerl/lib/otp.net/Otp/OtpInputStream.cs:156-172 | returns what its function in ExternalFormat returns and leaves the same rest, or throws where that fails |
| OtpStreams.OtpInputStream.Read4BE | jungerl/lib/otp.net/Otp/OtpInputStream.cs:178-194 | returns what its function in ExternalFormat returns and leaves the same rest, or throws where that fails |
| OtpStreams.OtpInputStream.ReadAtom | jungerl/lib/otp.net/Otp/OtpInputStream.cs:286-309 | returns what its function in ExternalFormat returns and leaves the same rest, or throws where that fails |
| OtpStreams.OtpInputStream.ReadLong | jungerl/lib/otp.net/Otp/OtpInputStream.cs:589-646 | returns what its function in ExternalFormat returns and leaves the same rest, or throws where that fails |
| OtpStreams.OtpInputStream.ReadString | jungerl/lib/otp.net/Otp/OtpInputStream.cs:897-940 | returns what its function in ExternalFormat returns and leaves the same rest, or throws where that fails |
| OtpStreams.OtpInputStream.ReadPid | jungerl/lib/otp.net/Otp/OtpInputStream.cs:777-802 | returns what its function in ExternalFormat returns and leaves the same rest, or throws where that fails |
| OtpStreams.OtpInputStream.ReadPort | jungerl/lib/otp.net/Otp/OtpInputStream.cs:812-835 | returns what its function in ExternalFormat returns and leaves the same rest, or throws where that fails |
| OtpStreams.OtpInputStream.ReadRef | jungerl/lib/otp.net/Otp/OtpInputStream.cs:845-887 | returns what its function in ExternalFormat returns and leaves the same rest, or throws where that fails |
| OtpStreams.OtpInputStream.ReadListHead | jungerl/lib/otp.net/Otp/OtpInputStream.cs:656-692 | returns what its function in ExternalFormat returns and leaves the same rest, or throws where that fails |
| OtpStreams.OtpInputStream.ReadTupleHead | jungerl/lib/otp.net/Otp/OtpInputStream.cs:702-733 | returns what its function in ExternalFormat returns and leaves the same rest, or throws where that fails |
| OtpStreams.OtpInputStream.ReadBinary | jungerl/lib/otp.net/Otp/OtpInputStream.cs:319-342 | returns what its function in ExternalFormat returns and leaves the same rest, or throws where that fails |
| OtpStreams.OtpInputStream.ReadAny | jungerl/lib/otp.net/Otp/OtpInputStream.cs:950-1005 | returns what its function in ExternalFormat returns and leaves the same rest, or throws where that fails |
| OtpStreams.OtpInputStream.ReadMany | jungerl/lib/otp.net/Otp/Erlang/Tuple.cs:147-160 | the element loop of the stream constructors of lists and tuples |
| OtpStreams.FromDigits | jungerl/lib/otp.net/Otp/OtpInputStream.cs:616-637 | the accumulating loop computes the little endian value in wrapping 64-bit arithmetic |
| OtpStreams.OtpOutputStream.Write | jungerl/lib/otp.net/Otp/AbstractConnection.cs:224-225 | write (OtpOutputStream.cs:110-122): appends exactly the bytes of its function in ExternalFormat, growing the buffer where needed |
| OtpStreams.OtpOutputStream.WriteN | jungerl/lib/otp.net/Otp/AbstractConnection.cs:1268-1280 | writeN (OtpOutputStream.cs:130-144): appends exactly the bytes of its function in ExternalFormat, growing the buffer where needed |
| OtpStreams.OtpOutputStream.Write2BE | jungerl/lib/otp.net/Otp/AbstractConnection.cs:1264-1266 | write2BE (OtpOutputStream.cs:210-214): appends exactly the bytes of its function in ExternalFormat, growing the buffer where needed |
| OtpStreams.OtpOutputStream.Write4BE | jungerl/lib/otp.net/Otp/AbstractConnection.cs:1267-1267 | write4BE (OtpOutputStream.cs:222-228): appends exactly the bytes of its function in ExternalFormat, growing the buffer where needed |
| OtpStreams.OtpOutputStream.WriteAtom | jungerl/lib/otp.net/Otp/Erlang/Atom.cs:136-139 | write_atom (OtpOutputStream.cs:297-314): appends exactly the bytes of its function in ExternalFormat, growing the buffer where needed |
| OtpStreams.OtpOutputStream.WriteLong | jungerl/lib/otp.net/Otp/Erlang/Long.cs:217-220 | write_long (OtpOutputStream.cs:465-495): appends exactly the bytes of its function in ExternalFormat, growing the buffer where needed |
| OtpStreams.OtpOutputStream.WriteString | jungerl/lib/otp.net/Otp/Erlang/String.cs:83-86 | write_string (OtpOutputStream.cs:713-763): appends exactly the bytes of its function in ExternalFormat, growing the buffer where needed |
| OtpStreams.OtpOutputStream.WriteListHead | jungerl/lib/otp.net/Otp/Erlang/List.cs:241-260 | write_list_head (OtpOutputStream.cs:554-573): appends exactly the bytes of its function in ExternalFormat, growing the buffer where needed |
| OtpStreams.OtpOutputStream.WriteTupleHead | jungerl/lib/otp.net/Otp/Erlang/Tuple.cs:237-246 | write_tuple_head (OtpOutputStream.cs:582-594): appends exactly the bytes of its function in ExternalFormat, growing the buffer where needed |
| OtpStreams.OtpOutputStream.WritePid | jungerl/lib/otp.net/Otp/Erlang/Pid.cs:150-153 | write_pid (OtpOutputStream.cs:611-618): appends exactly the bytes of its function in ExternalFormat, growing the buffer where needed |
| OtpStreams.OtpOutputStream.WritePort | jungerl/lib/otp.net/Otp/Erlang/Port.cs:132-135 | write_port (OtpOutputStream.cs:632-638): appends exactly the bytes of its function in ExternalFormat, growing the buffer where needed |
| OtpStreams.OtpOutputStream.WriteRef | jungerl/lib/otp.net/Otp/Erlang/Ref.cs:201-204 | write_ref (OtpOutputStream.cs:652-706): appends exactly the bytes of its function in ExternalFormat, growing the buffer where needed |
| OtpStreams.OtpOutputStream.WriteBinary | jungerl/lib/otp.net/Otp/Erlang/Binary.cs:163-166 | write_binary (OtpOutputStream.cs:321-326): appends exactly the bytes of its function in ExternalFormat, growing the buffer where needed |
| OtpStreams.OtpOutputStream.WriteAny | jungerl/lib/otp.net/Otp/Erlang/List.cs:241-260 | write_any (OtpOutputStream.cs:780-784): appends exactly the bytes of its function in ExternalFormat, growing the buffer where needed |
| OtpStreams.OtpOutputStream.Poke4BE | jungerl/lib/otp.net/Otp/AbstractConnection.cs:241-241 | poke4BE (OtpOutputStream.cs:281-290): overwrites four bytes as far as the stream goes, and no others; throws where the buffer ends |
| DistMessages.OwnMessage | jungerl/lib/otp.net/Otp/AbstractConnection.cs:516-747 | every send, reg_send, link and unlink this library writes is understood as meant |
| DistMessages.OwnExitIsGarbage | jungerl/lib/otp.net/Otp/AbstractConnection.cs:438-462 | an exit of this library carries its reason as a string and is garbage to its own receive loop |
| DistProtocol.HeaderConforms | jungerl/lib/otp.net/Otp/AbstractConnection.cs:246-462 | every header this library writes is that of the operation meant: its number, its arity and its fields, without a trace token |
| DistProtocol.ConformingHandled | jungerl/lib/otp.net/Otp/AbstractConnection.cs:516-747 | every operation of the protocol is handled by its number and handed on with its fields; the first cookie must be the expected one, and only the first is looked at |
| DistProtocol.MeantHanded | jungerl/lib/otp.net/Otp/OtpMsg.cs:43-68 | what a receiver is meant to get is what the operation calls for |
| DistMessages.BadCookiePlain | jungerl/lib/otp.net/Otp/AbstractConnection.cs:554-577 | a cookie that is refused can be written back |
| DistMessages.BadCookieAnswered | jungerl/lib/otp.net/Otp/AbstractConnection.cs:290-343 | whenever the loop ends over a bad cookie, the answer is a reg_send to auth under that cookie |
| DistMessages.ReceivePacket | jungerl/lib/otp.net/Otp/AbstractConnection.cs:472-521 | one packet is cut out of the stream by its length; an empty one is answered with a tock |
| DistMessages.ReceiveFrames | jungerl/lib/otp.net/Otp/AbstractConnection.cs:472-521 | for every stream of length-prefixed frames, whatever is in them, and every continuation: the loop takes exactly the bodies in order, and one tock is written per empty frame, up to a body that stops it |
| DistMessages.OwnHandled | jungerl/lib/otp.net/Otp/AbstractConnection.cs:516-747 | each body this library writes, exits apart, is understood as meant |
| DistMessages.ReceiveOwnPrefix | jungerl/lib/otp.net/Otp/AbstractConnection.cs:472-521 | for any sequence of messages and ticks followed by anything: exactly the messages meant are delivered in order and one tock is counted per tick before the rest is looked at |
| DistMessages.ReceiveOwn | jungerl/lib/otp.net/Otp/AbstractConnection.cs:214-244 | writer and reader are inverse: the whole stream is delivered |
| DistMessages.ReceiveOwnExit | jungerl/lib/otp.net/Otp/AbstractConnection.cs:438-462 | an exit in the stream ends the connection: what came before is delivered, nothing after |
| DistPeers.MessageDispatched | jungerl/lib/otp.net/Otp/AbstractConnection.cs:516-549 | a message of a peer is dispatched by the value of its header, in whatever encoding it comes |
| DistPeers.PeerExitIff | jungerl/lib/otp.net/Otp/AbstractConnection.cs:648-685 | EXIT and EXIT2 of a peer are understood if and only if the reason is an atom; otherwise the connection ends |
| DistPeers.PeerLink | jungerl/lib/otp.net/Otp/AbstractConnection.cs:687-699 | LINK and UNLINK of a peer are understood |
| DistPeers.PeerSend | jungerl/lib/otp.net/Otp/AbstractConnection.cs:551-597 | SEND of a peer is understood, and what follows the header is handed on |
| DistPeers.PeerRegSend | jungerl/lib/otp.net/Otp/AbstractConnection.cs:599-646 | REG_SEND of a peer is understood, and what follows the header is handed on |
| DistPeers.PeerMonitorIff | jungerl/lib/otp.net/Otp/AbstractConnection.cs:712-737 | the monitor messages of a peer are understood if and only if both processes are given by pids; otherwise the connection ends |
| DistPeers.PeerIgnored | jungerl/lib/otp.net/Otp/AbstractConnection.cs:702-710 | NODE_LINK and GROUP_LEADER are ignored, whatever they hold |
| DistPeers.BodiesUnderstood | jungerl/lib/otp.net/Otp/AbstractConnection.cs:516-747 | the fold over the bodies of a peer is the fold over their meanings |
| DistPeers.ReceivePeer | jungerl/lib/otp.net/Otp/AbstractConnection.cs:464-774 | for any messages and ticks of a peer, in any encodings, and whatever comes after them: the loop delivers their meanings in order and answers the ticks, up to a message that ends the connection |
| DistConnection.AbstractConnection.Send | jungerl/lib/otp.net/Otp/AbstractConnection.cs:214-462 | the bytes on the socket are the packet of the message, with the length filled in afterwards |
| DistConnection.AbstractConnection.ReadSock | jungerl/lib/otp.net/Otp/AbstractConnection.cs:1091-1123 | however the socket cuts its bytes, exactly the wanted number is read, or the end of the stream is reported |
| DistConnection.AbstractConnection.HandleBody | jungerl/lib/otp.net/Otp/AbstractConnection.cs:516-747 | one packet body has the effect of DistMessages.Dispatch, and a bad cookie is answered |
| DistConnection.AbstractConnection.CookieError | jungerl/lib/otp.net/Otp/AbstractConnection.cs:290-343 | writes the answer to a bad cookie, from a disposable pid, under the cookie of the peer |
| DistConnection.AbstractConnection.Start | jungerl/lib/otp.net/Otp/AbstractConnection.cs:464-774 | for every way the socket cuts the stream: deliveries, tocks, the answer to a bad cookie and the reason of the end are those of DistMessages.Receive |
| DistConnection.TocksAreTicks | jungerl/lib/otp.net/Otp/AbstractConnection.cs:469-508 | a tock is an empty packet, as a tick |
| Handshake.DigestsTellCookies | jungerl/lib/otp.net/Otp/AbstractConnection.cs:1233-1257 | for one challenge the digests agree exactly if the cookies do, a null cookie counting as empty |
| Handshake.TextRead | jungerl/lib/otp.net/Otp/AbstractConnection.cs:1233-1250 | the hashed text is the cookie followed by the decimal digits of the unsigned challenge, without leading zeros |
| Handshake.ChallengesTold | jungerl/lib/otp.net/Otp/AbstractConnection.cs:1233-1250 | for one cookie two challenges give the same text if and only if they agree in their 32 bits |
| Handshake.ReplyForThisChallenge | jungerl/lib/otp.net/Otp/AbstractConnection.cs:1468-1502 | a reply made with the right cookie makes the acceptor connect if and only if it is for its challenge |
| Handshake.AckForThisChallenge | jungerl/lib/otp.net/Otp/AbstractConnection.cs:1520-1553 | an acknowledgement made with the right cookie makes the initiator connect if and only if it is for its challenge |
| Handshake.StepKeepsInv | jungerl/lib/otp.net/Otp/AbstractConnection.cs:1125-1190 | every step of either side leads from an expected state to an expected state |
| Handshake.RunInv | jungerl/lib/otp.net/Otp/AbstractConnection.cs:1125-1190 | every schedule of the two sides stays within the expected states |
| Handshake.HandshakeOutcome | jungerl/lib/otp.net/Otp/AbstractConnection.cs:1125-1190 | in every schedule: nobody is connected unless nodes and cookies fit, the initiator only after the acceptor, both with the smaller of the highs; and when nothing can move, both are connected if and only if nodes and cookies fit |
| Handshake.StepsDecrease | jungerl/lib/otp.net/Otp/AbstractConnection.cs:1125-1190 | at most eight steps are taken, so no schedule goes on for ever |
| Handshake.NullCookie | jungerl/lib/otp.net/Otp/OtpNode.cs:485-491 | a connection set up without a cookie is accepted exactly by a node whose cookie is empty |
| HandshakeWire.PackageRoundTripIff | jungerl/lib/otp.net/Otp/AbstractConnection.cs:1322-1334 | a package is cut out of the stream as written if and only if its length fits the two-byte length field |
| HandshakeWire.Layout | jungerl/lib/otp.net/Otp/AbstractConnection.cs:1259-1320 | the kind of a package is its first byte, n, s, n, r or a, and its fields are at fixed places |
| HandshakeWire.NameRoundTripIff | jungerl/lib/otp.net/Otp/AbstractConnection.cs:1337-1399 | recvName gives back what sendName wrote if and only if version, flags and name are acceptable |
| HandshakeWire.ChallengeRoundTripIff | jungerl/lib/otp.net/Otp/AbstractConnection.cs:1401-1440 | recvChallenge gives back what sendChallenge wrote if and only if the name has an @ and only byte characters |
| HandshakeWire.StatusRoundTrip | jungerl/lib/otp.net/Otp/AbstractConnection.cs:1583-1620 | recvStatus accepts exactly ok |
| HandshakeWire.DigestRoundTrips | jungerl/lib/otp.net/Otp/AbstractConnection.cs:1442-1553 | reply and acknowledgement come back |
| HandshakeWire.StreamHead | jungerl/lib/otp.net/Otp/AbstractConnection.cs:1322-1334 | the first package in a channel is the first message sent, and the rest of the channel is the rest of the messages |
| HandshakeWire.StepIImage | jungerl/lib/otp.net/Otp/AbstractConnection.cs:1159-1190 | a step of the initiator on bytes is the image of its step on messages |
| HandshakeWire.StepAImage | jungerl/lib/otp.net/Otp/AbstractConnection.cs:1125-1157 | a step of the acceptor on bytes is the image of its step on messages |
| HandshakeWire.RunImage | jungerl/lib/otp.net/Otp/AbstractConnection.cs:1125-1190 | every run over byte channels is the image of the run over messages |
| HandshakeWire.WireOutcome | jungerl/lib/otp.net/Otp/AbstractConnection.cs:1125-1190 | over bytes, once nothing can move, both sides are connected if and only if nodes and cookies fit, holding the same distChoose |
| HandshakeConnection.Send | jungerl/lib/otp.net/Otp/AbstractConnection.cs:1259-1320 | the five send methods write exactly HandshakeWire.Package |
| HandshakeConnection.Read2BytePackage | jungerl/lib/otp.net/Otp/AbstractConnection.cs:1322-1334 | reads one package, or reports the end of the stream |
| HandshakeConnection.ReceiveName | jungerl/lib/otp.net/Otp/AbstractConnection.cs:1337-1399 | takes one package and returns what its function in HandshakeWire returns, or throws where that does |
| HandshakeConnection.ReceiveStatus | jungerl/lib/otp.net/Otp/AbstractConnection.cs:1583-1620 | takes one package and returns what its function in HandshakeWire returns, or throws where that does |
| HandshakeConnection.ReceiveChallenge | jungerl/lib/otp.net/Otp/AbstractConnection.cs:1401-1440 | takes one package and returns what its function in HandshakeWire returns, or throws where that does |
| HandshakeConnection.ReceiveReply | jungerl/lib/otp.net/Otp/AbstractConnection.cs:1468-1502 | takes one package and returns what its function in HandshakeWire returns, or throws where that does |
| HandshakeConnection.ReceiveAck | jungerl/lib/otp.net/Otp/AbstractConnection.cs:1520-1553 | takes one package and returns what its function in HandshakeWire returns, or throws where that does |
| Md4Known.Choice | jungerl/lib/esmb/c_src/md4.c:59-59 | F takes the bits of y where x has a one, and those of z elsewhere |
| Md4Known.Majority | jungerl/lib/esmb/c_src/md4.c:60-60 | G is the majority of the three |
| Md4Known.Parity | jungerl/lib/esmb/c_src/md4.c:61-61 | H is the parity of the three |
| Md4Known.Rotated | jungerl/lib/esmb/c_src/md4.c:65-65 | ROTATE_LEFT is the rotation of a 32-bit word, for every shift of section 3.4 of RFC 1320 |
| Md4Known.RoundConstants | jungerl/lib/esmb/c_src/md4.c:74-81 | the constants of rounds 2 and 3 are the integer parts of 2^30 times the square roots of 2 and 3 |
| Md4Known.InitialBytes | jungerl/lib/esmb/c_src/md4.c:92-95 | the bytes of the initial registers are those of section 3.3 of RFC 1320 |
| Md4Known.DigestOfAlphabet | jungerl/lib/esmb/c_src/md4.c:143-167 | the digest of the message abcdefghijklmnopqrstuvwxyz is that of the test suite in appendix A.5 of RFC 1320 |
| Md4Spec.WordsRoundTrip | jungerl/lib/esmb/c_src/md4.c:246-275 | Decode undoes Encode |
| Md4Spec.Padding | jungerl/lib/esmb/c_src/md4.c:151-157 | the padding has 1 to 64 bytes and ends at 56 modulo 64 |
| Md4Spec.Padded | jungerl/lib/esmb/c_src/md4.c:151-160 | padding and length end exactly on a block boundary |
| Md4Spec.ChainAppend | jungerl/lib/esmb/c_src/md4.c:120-133 | processing blocks in two parts is processing them in one |
| Md4Schedule.Four | jungerl/lib/esmb/c_src/md4.c:180-235 | four steps of the loop in section 3.4 of RFC 1320 are four lines with rotated register roles |
| Md4.Unrolled | jungerl/lib/esmb/c_src/md4.c:171-241 | the 48 unrolled lines compute the 48-step loop over the word-index and shift tables of section 3.4 of RFC 1320 |
| Md4.Decode | jungerl/lib/esmb/c_src/md4.c:264-275 | bytes to words, low-order byte first |
| Md4.Encode | jungerl/lib/esmb/c_src/md4.c:246-259 | words to bytes, low-order byte first |
| Md4.CountIndex | jungerl/lib/esmb/c_src/md4.c:109-110 | the buffer index taken from the bit count is the number of bytes modulo 64 |
| Md4.CountStep | jungerl/lib/esmb/c_src/md4.c:112-115 | the two-word count with compare-based carry is the bit length modulo 2^64 |
| Md4.FirstChain | jungerl/lib/esmb/c_src/md4.c:121-124 | completing the buffered block continues the chain over the whole message |
| Md4.HashPieces | jungerl/lib/esmb/c_src/md4.c:102-167 | however a message is cut into MD4Update calls, the result is the RFC 1320 digest of the concatenation |
| Md4.Md4Context.Init | jungerl/lib/esmb/c_src/md4.c:85-96 | the state of section 3.3 of RFC 1320, nothing fed |
| Md4.Md4Context.Transform | jungerl/lib/esmb/c_src/md4.c:171-241 | one compression with the final feed-forward |
| Md4.Md4Context.Update | jungerl/lib/esmb/c_src/md4.c:102-138 | state is the chain over the complete blocks, the buffer holds the remainder, count the bit length, of everything fed so far |
| Md4.Md4Context.Final | jungerl/lib/esmb/c_src/md4.c:143-167 | returns the digest of everything fed and wipes the context |
| IoVectors.KeptFlat | jungerl/lib/zlib/c_src/zlib_drv.c:557-562 | queueing a vector queues its bytes |
| IoVectors.DequeuedFlat | jungerl/lib/zlib/c_src/zlib_drv.c:235-236 | dequeueing n bytes drops exactly the first n and leaves no empty piece |
| IoVectors.FlatAppend | jungerl/lib/zlib/c_src/zlib_drv.c:557-562 | the bytes of a queue are those of its parts in order |
| ZLibDriver.ZLibData.constructor | jungerl/lib/zlib/c_src/zlib_drv.c:341-363 | no buffer, no queue, default buffer size, checksum 0 |
| ZLibDriver.ZLibData.OutputInit | jungerl/lib/zlib/c_src/zlib_drv.c:175-185 | a fresh empty buffer of the wanted size |
| ZLibDriver.ZLibData.Output | jungerl/lib/zlib/c_src/zlib_drv.c:191-204 | the buffered bytes become one message of 1 to binsz bytes, none if there are none, and all that was kept is sent |
| ZLibDriver.ZLibData.Call | jungerl/lib/zlib/c_src/zlib_drv.c:225-227 | one codec call: a prefix of next_in is taken, what the codec wrote is appended to the buffer, and both continue the history of the stream |
| ZLibDriver.ZLibData.Emit | jungerl/lib/zlib/c_src/zlib_drv.c:228-233 | a full buffer goes out; when expanding with want_crc its bytes enter the checksum first |
| ZLibDriver.ZLibData.Pump | jungerl/lib/zlib/c_src/zlib_drv.c:224-234 | the inner loop terminates, hands the codec each byte once and in order, never calls it without room, and sends only full buffers |
| ZLibDriver.ZLibData.DeflatePiece | jungerl/lib/zlib/c_src/zlib_drv.c:266-284 | the head of the queue is compressed, summed and dequeued up to what the codec took |
| ZLibDriver.ZLibData.InflatePiece | jungerl/lib/zlib/c_src/zlib_drv.c:216-237 | the head of the queue is expanded and dequeued up to what the codec took |
| ZLibDriver.ZLibData.DeflateQueue | jungerl/lib/zlib/c_src/zlib_drv.c:266-284 | the outer loop terminates; OK means that the queue is empty |
| ZLibDriver.ZLibData.InflateQueue | jungerl/lib/zlib/c_src/zlib_drv.c:216-237 | the outer loop terminates; OK means that the queue is empty |
| ZLibDriver.ZLibData.Flush | jungerl/lib/zlib/c_src/zlib_drv.c:286-296 | the flush loop terminates and, if it succeeds, leaves the buffer empty; every call is told the flush mode asked for; a compressor told to finish has ended |
| ZLibDriver.ZLibData.Deflate | jungerl/lib/zlib/c_src/zlib_drv.c:256-298 | with a real flush mode success leaves no byte unsent, without one only full buffers are sent; OK leaves an empty queue; the codec always has room if there was room before; a codec that does not fail makes no call fail; the codec is told to go on while it is fed, and then the mode of the command; Z_FINISH without failure answers Z_STREAM_END |
| ZLibDriver.ZLibData.Inflate | jungerl/lib/zlib/c_src/zlib_drv.c:206-254 | the same for zlib_inflate, Z_FINISH apart |
| ZLibDriver.ZLibData.Outputv | jungerl/lib/zlib/c_src/zlib_drv.c:557-562 | queues the vector behind what is queued |
| ZLibDriver.ZLibData.Init | jungerl/lib/zlib/c_src/zlib_drv.c:388-414 | on Z_OK mode, checksum and counts start afresh, otherwise only the codec state changes |
| ZLibDriver.ZLibData.DropQueue | jungerl/lib/zlib/c_src/zlib_drv.c:421-426 | reset and end drop what is queued and nothing else |
| ZLibDriver.ZLibData.End | jungerl/lib/zlib/c_src/zlib_drv.c:428-434 | the queue is dropped and the mode is none whatever the codec says |
| ZLibDriver.ZLibData.Absorb | jungerl/lib/zlib/c_src/zlib_drv.c:436-440 | what deflateParams writes at next_out is appended to the buffer, or lost if the buffer was freed; leftover input it takes is accounted for |
| ZLibDriver.ZLibData.SetBufsz | jungerl/lib/zlib/c_src/zlib_drv.c:512-531 | a changed size empties the buffer; its bytes are sent but not summed, and skipped grows by exactly their number; an empty buffer is freed, but avail_out keeps its old value |
| ZLibDriver.ZLibData.Params | jungerl/lib/zlib/c_src/zlib_drv.c:436-440 | everything written stays sent or in the buffer if and only if there is a buffer or deflateParams writes nothing |
| ZLibDriver.ZLibData.Sync | jungerl/lib/zlib/c_src/zlib_drv.c:479-483 | inflateSync writes nothing; it may skip leftover input |
| ZLibDriver.ZLibData.Ask | jungerl/lib/zlib/c_src/zlib_drv.c:506-548 | the replies about queue, buffer size and checksums |
| ZLibDriver.ZLibData.Ctl | jungerl/lib/zlib/c_src/zlib_drv.c:381-554 | sent ++ unsent == written is kept by a command if and only if it is not an accepted DEFLATE_PARAMS that writes when there is no buffer, and what is lost is then exactly what it writes; a command that does not fit mode or length changes nothing; a successful init starts the counts afresh and every other command keeps them, except that reset and end drop the queue; the checksum of an expanded stream still covers what was sent if and only if the command is not an accepted SET_BUFSZ with another size on a buffer that holds something |
| ZLibCodec.TracksSent | jungerl/lib/zlib/c_src/zlib_drv.c:228-233 | the summed bytes follow the bytes sent, those past the checksum counted as skipped |
| ZLibDriver.ExpandedChecksum | jungerl/lib/zlib/c_src/zlib_drv.c:242-246 | after a flush the checksum is crc32 of all clear text of the stream, if it began with an empty buffer and no new buffer size lost it |
| ZLibDriver.CompressedChecksum | jungerl/lib/zlib/c_src/zlib_drv.c:280-283 | with an empty queue the checksum is crc32 of all that arrived, and the codec took just that unless it failed or was fed stale input |
| ZLibDriver.SentIsHistory | jungerl/lib/zlib/c_src/zlib_drv.c:206-298 | what was sent since the init is what the codec made of the bytes taken from the queue, however input and output were cut, if nothing was lost since the init |
| ZLibRuns.Queue | jungerl/lib/zlib/c_src/zlib_drv.c:557-562 | vectors queued one after the other arrive as their concatenation |
| ZLibRuns.Expand | jungerl/lib/zlib/c_src/zlib_drv.c:459-504 | init, output and INFLATE with a flush, unless the codec fails: the messages are what it makes of a prefix of the input, of all of it if the answer is OK, and the stored checksum is that of the messages; a codec that never fails makes no command fail |
| ZLibRuns.ResizeLosesChecksum | jungerl/lib/zlib/c_src/zlib_drv.c:512-531 | a concrete run: three expanded bytes are held back, SET_BUFSZ sends them, and the checksum is still that of nothing |
| ZLibRuns.ParamsLosesBytes | jungerl/lib/zlib/c_src/zlib_drv.c:436-440 | a concrete run: three bytes are compressed but held back, SET_BUFSZ frees the empty buffer, and DEFLATE_PARAMS makes the codec write where it was; these bytes are never sent |
| ZLibCodec.HoldingCodecIsLawful | jungerl/lib/zlib/c_src/zlib_drv.c:275-276 | the contract of the codec allows one that writes nothing until it is told to flush or given new parameters |
| ZLibRuns.Zip | jungerl/lib/zlib/src/zlib.erl:214-221 | zip: init, output, DEFLATE and DEFLATE with Z_FINISH: unless the codec fails, the stream has ended, the messages are what the codec made of all the input, and the stored checksum is that of the input |
| ZLibClient.TakenIff | jungerl/lib/zlib/src/zlib.erl:115-192 | the driver takes a call of zlib.erl, by its number and argument, if and only if the mode of the port fits |
| ZLibClient.Perform | jungerl/lib/zlib/src/zlib.erl:115-192 | every call of zlib.erl reaches zlib with the numbers of the call, in 32 bits, and answers with what zlib answers; one that does not fit changes nothing |
| IovecCursors.SliceOfFlat | jungerl/lib/gd1_drv/c_src/erl_driver_tk.h:57-60 | a stretch of one element is the stretch of the flat string at the cursor's offset |
| IovecCursors.Cursor.constructor | jungerl/lib/gd1_drv/c_src/gd1_drv.c:361-361 | the cursor starts at element 1 |
| IovecCursors.Cursor.Forward | jungerl/lib/gd1_drv/c_src/erl_driver_tk.c:111-140 | succeeds if and only if the element is valid, the position stays at or behind its start, n bytes remain and, when contiguous is wanted, remain in the element; success moves the flat offset by exactly n, 0 means the end; where the cursor stands after a failure |
| IovecCursors.Cursor.Pos | jungerl/lib/gd1_drv/c_src/erl_driver_tk.h:57-60 | points at the flat bytes from the offset to the end of the element |
| IovecCursors.Cursor.Get | jungerl/lib/gd1_drv/c_src/erl_driver_tk.h:20-54 | succeeds if and only if the element has k more bytes; they are the flat bytes at the offset, which advances by k |
| IovecCursors.Cursor.GetChar | jungerl/lib/gd1_drv/c_src/erl_driver_tk.h:21-28 | the flat byte at the offset |
| IovecCursors.Cursor.GetUint16 | jungerl/lib/gd1_drv/c_src/erl_driver_tk.h:33-41 | the big endian number of the two flat bytes at the offset |
| IovecCursors.Cursor.GetUint32 | jungerl/lib/gd1_drv/c_src/erl_driver_tk.h:44-54 | the big endian number of the four flat bytes at the offset |
| IovecCursors.Cursor.GetCounted | jungerl/lib/gd1_drv/c_src/gd1_drv.c:404-408 | a counted argument is the counted stretch of the flat string |
| SerialPort.Sl.constructor | jungerl/lib/sl/c_src/sl_drv.c:1178-1205 | closed, nothing queued |
| SerialPort.Sl.Close | jungerl/lib/sl/c_src/sl_drv.c:834-847 | DO_WRITE is deselected; the queue is kept |
| SerialPort.Sl.Open | jungerl/lib/sl/c_src/sl_drv.c:1025-1057 | closes, then opens; fails if the device does not open or its settings cannot be read, and then stays open; what is still queued is left over from the earlier session |
| SerialPort.Sl.WriteBuf | jungerl/lib/sl/c_src/sl_drv.c:942-967 | what the device does not take is queued, in order, and DO_WRITE selected |
| SerialPort.Sl.Output | jungerl/lib/sl/c_src/sl_drv.c:1000-1022 | output never overtakes what is queued |
| SerialPort.Sl.WriteMore | jungerl/lib/sl/c_src/sl_drv.c:969-997 | the device takes the front of the queue; DO_WRITE is deselected when nothing is left |
| SerialPort.Sl.NothingLeftOver | jungerl/lib/sl/c_src/sl_drv.c:992-993 | an empty queue means nothing is left over from an earlier session |
| SerialPort.NothingForgotten | jungerl/lib/sl/c_src/sl_drv.c:942-1022 | in a session that began with an empty queue, bytes written ++ bytes queued are all output in order |
| SerialPort.SelectedIff | jungerl/lib/sl/c_src/sl_drv.c:1007-1010 | DO_WRITE is selected exactly when something is queued, if and only if nothing was left over from an earlier session; otherwise nothing is ever written |
| SerialPort.LeftoverBlocks | jungerl/lib/sl/c_src/sl_drv.c:834-847 | a concrete run: what a full device left in the queue blocks the next session, although the device could take bytes |

## Left out

- OtpNodes.OtpMbox.Link: link tables and queues of the objects are values, of the types that `Links.LinksTable` and `GenericQueues.GenericQueue` are proved to implement; that no two objects share an array or a bucket is not modelled.
- OtpNodes.OtpNode.Deliver: delivery to a registered name and the built-in net_kernel are not part of the link model.
- OtpNodes.OtpNode.Connection: node names are complete, so that the second lookup finds what the first one does; the cookie belongs to the handshake.
- OtpNodes.OtpMbox.Deliver: monitors and their table are not modelled; such messages are only queued.
- OtpNodes.OtpCookedConnection.Deliver: monitors, and the answer to a monitor request for a pid that is gone, are not modelled.
- LinkSteps.ReachableInv: each API call is one atomic step; messages in flight between two nodes, a connection closed by another thread in the middle of a call, and the shutdown of a whole node are not modelled.
- LinkSteps.StepKeepsInvIffAllowed: weak references count as strong.
- LinkDelivery.RunInOrder: messages to registered names are not modelled, and the contents of a message are its text.
- GenericQueues.RunIsFifo: get(timeout) is a wait that may end without a pulse, and on a closed queue takes nothing; flush and close, which take no lock, are one step each, and that they wake a waiter is not claimed, because their pulse needs the lock they do not hold.
- GenericQueues.GenericQueue.TryGet: the waiting loops around it in get are steps of the thread model, not methods, because a method here cannot wait for another thread.
- Md4.Md4Context.Update: words have 32 bits, as the comment at jungerl/lib/esmb/c_src/global.h:19 intends; the typedef is wider where long is; one input has at most 2^32 - 64 bytes, so that i + 63 cannot wrap.
- Md4.HashPieces: each piece has at most 2^32 - 64 bytes.
- ExternalRoundTrip.TermRoundTripIff: it is about what this library writes; `ExternalEncodings.EncodingRead` is about every encoding.
- ExternalEncodings.EncodingRead: floats are not modelled, and neither are large bigs, funs and bit strings, which read_any refuses.
- OtpStreams.OtpInputStream.ReadAny: floats are not modelled; the bits of a small big are combined by addition instead of or.
- OtpStreams.OtpInputStream.ReadMany: elements that are floats are not modelled.
- OtpStreams.OtpInputStream.ReadString: characters stay below the surrogates.
- OtpStreams.OtpInputStream.Read2BE: a short read leaves zeros, as in the code; nothing more is claimed about truncated input. read8BE is not modelled.
- OtpStreams.OtpOutputStream.WriteAny: floats and the unsigned number classes are not modelled.
- DistMessages.OwnMessage: names, cookie and node names are atoms that survive the wire; other messages are only read as something else or not at all.
- DistConnection.AbstractConnection.Send: the connection is open and its writes succeed; what happens otherwise is `LinkProtocol.Send`.
- DistConnection.AbstractConnection.Start: trace output and the decoding of payloads by the receiver are left out; the exceptions handed to deliver(Exception) are the reason the loop ends with.
- DistConnection.AbstractConnection.CookieError: the write succeeds; node names are shorter than 2^31 - 2^16.
- ExternalEncodings.TextListRead: character codes from 0xD800 to 0xFFFF are not modelled.
- Handshake.HandshakeOutcome: epmd is taken to tell the truth about the acceptor, and the digest to tell the hashed texts of this handshake apart; the old handshake, short node names and the node types kept for display are not modelled; a side that fails counts as gone, although doConnect closes its socket only after authentication and socket errors.
- HandshakeWire.WireOutcome: packages are written and read whole; truncated packages are not modelled.
- HandshakeWire.StatusRoundTrip: the comparison with ok is taken as equality; the culture-sensitive one of the code also lets ignorable characters pass.
- ZLibDriver.ZLibData.Call: the codec never asks for a dictionary, and allocation and output to the port succeed; driver_enqv is taken to drop empty elements.
- ZLibDriver.ZLibData.Ctl: what a write to freed memory destroys is not modelled; replies are values, not the reason texts and four bytes they are sent as.
- IovecCursors.Cursor.Forward: sums of positions and lengths stay within an int, and lengths are wider than an int.
- IovecCursors.Cursor.GetUint32: only the low 32 bits of the result are modelled; they are stored into an unsigned long that may be wider.
- SerialPort.Sl.WriteBuf: a write ends with some bytes taken or EAGAIN; other write errors are not modelled.
- SerialPort.Sl.WriteMore: as for WriteBuf; the Windows branches and the terminal settings are not modelled.
- The call tables of gd1, posix, spread, unixdom, gtkNode, slang, iconv and intl: argument unpacking around foreign libraries.
- Sockets, epmd lookups, descriptor passing, tun/tap, psocket and echo servers: input and output only.
- URL encoding in ibrowse_drv.c.
