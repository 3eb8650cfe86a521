# A verified model of the SBOL database server

The server keeps the accounts, garages and teams of an online racing game for a handful of game
servers that connect to it over TCP. This project models the parts in which many steps have to
fit together, and proves what they keep:

- `Bytes.dfy`, `Packet.dfy`: the packet buffer, one array of 8192 bytes with a cursor and a size
  that are both `uint16_t`, with its guarded writers and readers.
- `Framing.dfy`: the byte stream. A recursive parser is the reference; the receive path, which
  takes arbitrary chunks and delivers at most one frame per call, is proved to follow it.
- `Outgoing.dfy`: building a reply, padding it to 16-byte blocks, and sending one packet object
  again and again.
- `Client.dfy`: one slot of the server as a class with its buffers, its queue and its state. Ghost
  fields record what was received, consumed, enqueued and put on the wire since the slot was last
  initialised; `Receiving` and `Sending` say that no byte is lost, invented or reordered.
- `Server.dfy`: receiving and sending on a slot, with the results of `recv` and `send` as
  arbitrary outcomes.
- `Schedule.dfy`: one slot over any schedule of receives, transmissions, replies, broadcasts,
  handshakes and heartbeats.
- `Reuse.dfy`: what a slot carries over from one occupant to the next, and from one reply to the
  next.
- `Round.dfy`: a turn, a round and a whole run of the server loop as functions on the values of the
  slots, and what they mean in terms of bytes and frames.
- `Life.dfy`: every open slot of a running server has come about by such a schedule, so what is
  proved of schedules holds of it.
- `EndToEnd.dfy`: two endpoints joined by a byte stream, over every schedule.
- `Sessions.dfy`: the connection table, the key handshake and the gate in front of the handlers,
  as a step relation over whole runs.
- `Table.dfy`: the server object with its slots, its index of open slots, what the handlers
  do to the slots, the broadcast and the server loop. The loop is proved against both: it is a run of
  the step relation of `Sessions.dfy` from the start of the server on, and it leaves the slots as the
  functions of `Round.dfy` say.
- `SaveRecord.dfy`, `Chat.dfy`: the longest record of the protocol and the chat relay.
- `Garage.dfy`, `Teams.dfy`: the handlers that change the garage, team and account tables.
- `Hex.dfy`: the hexadecimal text in SQL statements.

State that the server updates in place is modelled by classes and loops; each method is proved
against a function of the old state, and the properties are lemmas about these functions over all
inputs and runs. Encryption and compression are compiled out in this version
(`SBOL DB Server/globals.h:6-7`), so both are copies of a buffer onto itself.

Some facts of the code that the proofs make visible:

- A frame of exactly 8192 bytes is consumed but never copied into the packet buffer, so the
  handler sees the previous packet again (`Servers.FramePresentedIff`).
- A head that declares a total size below 6 or above 8192 blocks its connection for good without
  disconnecting it (`Framing.PoisonIsForever`).
- The padding loop of `CLIENT::Send` does not terminate when the padding does not fit. A first send
  always fits; sending the same packet again may not. `Send` and `SendToAll` therefore require room,
  and `Outgoing.PaddingTerminatesIff` and `Outgoing.BroadcastIsIdempotent` show that the requirement
  is exact. There are two ways into the endless loop. A broadcast of a large packet to several
  clients is one: the team data of 310 members sticks with eight open slots
  (`Outgoing.TeamDataSticks`); the server has ten (`SBOL DB Server/server.cpp:22`). The other is a
  request that no case of a handler matches, or a login or team query for which the database cannot
  be opened: it ends in `client->Send()` without building a reply
  (`SBOL DB Server/Packets/ClientRequestsPackets.cpp:741`,
  `SBOL DB Server/Packets/ClientAuthPackets.cpp:444`) and so sends the last packet again, which moves
  its cursor on by two. Only an authenticated client gets that far (`Schedules.GateNeedsAuth`). After
  a handshake, and with no other reply or heartbeat in between, 4078 such requests are answered and
  the next one hangs the server (`Reuse.RepeatsStickIff`, and for any last packet
  `Reuse.RepeatTerminatesIff`).
- A turn that closes a slot still makes a heartbeat for it. That leaves a packet in the closed slot's
  reply buffer and the time of the next heartbeat 30 seconds ahead, and accepting a new connection
  resets neither (`Tables.Server.ServeConnection`, `Tables.Server.AcceptConnection`). The old reply
  never shows: sending a reply again takes an authenticated client, and the handshake has put its own
  answer there. The time does show. Two slots that differ in nothing else are alike along a
  schedule exactly when the first operation that sets the earlier time, a client's heartbeat packet
  or a turn of the server later than it, sets the later time as well (`Reuse.ClockShowsIff`). For a
  slot closed at time t and a brand-new one: when t is 0, or the first client heartbeat or turn
  after time 0, if there is one, is a client heartbeat or a turn later than t + 30
  (`Reuse.ReuseShowsIff`). `Reuse.ReuseShows` is a schedule that tells them apart, and
  `Reuse.ClientBeatHides` one where a client heartbeat hides the difference.
- A send queue is never too long: the test for more than 100 entries stands behind the one for more
  than 10 and is not reached (`SBOL DB Server/client.cpp:265-278`), so no slot is disconnected for it.
- The remove handler reads the bay from one byte, while Save, swap and move use four
  (`SBOL DB Server/Packets/ClientRequestsPackets.cpp:258`), so a car in a bay from 256 on cannot be
  removed. `Garage.GarageTable.RemoveCar` takes a bay below 256.
- The gate's bound admits one type behind the handler table; the model calls this a `WildCall` and
  treats it as a handler run in the gating theorem. The bound is taken as 6, as in a 32-bit build.
- `teamid = NULL AND teamarea = 0` assigns a three-valued expression to `teamid` only, so members
  with an area are left with team id 0 and cannot create a team until a Save clears the column
  (`Teams.DeleteEmptiesTheTeam`).
- Three guarantees hold only under a condition that the handlers do not check. The condition is
  proved to be exact, and a run shows each of them fail: what Save may write into the team column
  (`Teams.SaveKeepsInvIff`, `Teams.SaveCanBreakInv`), which bays a car may be moved between
  (`Garage.MoveKeepsUniqueIff`, `Garage.MoveCanStackCars`), and where the text of a chat message
  must end (`Chat.RelayPreservesMessageIff`, `Chat.LongTextIsCut`).

## Model

| member | source | states |
|---|---|---|
| `EndToEnd.Fifo` | SBOL DB Server/server.cpp:931-1033 | for every run of queued frames, partial or blocked socket sends, chunks of any size and empty polls, the delivered frames are a prefix of the enqueued frames, whole and in order, and all of them with nothing left over once both sides have drained |
| `EndToEnd.EverythingCanBeDelivered` | SBOL DB Server/server.cpp:931-1033 | no run can get the transport stuck: from every reachable state some schedule without new frames delivers everything enqueued so far |
| `EndToEnd.ProductiveMoves` | SBOL DB Server/server.cpp:931-1033 | unless everything is delivered, there is a transmission, a delivery or a one-byte receipt that lowers the remaining work and keeps the stream consistent |
| `EndToEnd.RunConsistent` | SBOL DB Server/server.cpp:931-1033 | after every run, delivered frames, receive buffer, bytes on the wire, send buffer and queue together are the enqueued frames in order |
| `EndToEnd.SlotsDeliverInOrder` | SBOL DB Server/server.cpp:931-1033 | the same for two slot objects in whatever state their methods left them: a slot that received a prefix of what another put on its socket delivered a prefix of what the other enqueued, and everything once it received everything |
| `EndToEnd.SlotFollowsParser` | SBOL DB Server/server.cpp:1009-1033 | what a slot has delivered since it was initialised, followed by the frames still complete in its buffer, is the parse of everything it received since then |
| `Framing.ParsePartitions` | SBOL DB Server/server.cpp:1009-1033 | the recursive frame parser loses and invents no byte, yields whole frames only and stops only where no complete frame stands |
| `Framing.ParseExtends` | SBOL DB Server/server.cpp:1009-1033 | bytes that arrive later never change the frames already complete |
| `Framing.ParseOfConcat` | SBOL DB Server/server.cpp:1009-1033 | frames are self-delimiting: the parse of any concatenation of whole frames gives these frames back |
| `Framing.ParseOfPrefix` | SBOL DB Server/server.cpp:1009-1033 | a prefix of a stream of whole frames parses to a prefix of the frames |
| `Framing.PollsFollowParser` | SBOL DB Server/server.cpp:1009-1033 | for every schedule of chunks and polls, the frames delivered and those still complete in the buffer are the parse of the stream |
| `Framing.PollsConserve` | SBOL DB Server/server.cpp:974-1033 | delivered frames and buffered bytes are exactly the bytes that arrived, in order |
| `Framing.EmptyPollsDrain` | SBOL DB Server/server.cpp:1002-1006 | empty polls alone deliver every complete buffered frame and leave the incomplete rest |
| `Framing.ChunkingIndependence` | SBOL DB Server/server.cpp:974-1033 | two schedules carrying the same bytes deliver the same frames and keep the same rest, however the bytes were cut |
| `Framing.PoisonIsForever` | SBOL DB Server/server.cpp:1016-1032 | once the head declares a total size below 6 or above 8192, uint16 wrap included, no frame is delivered by any further schedule and the head stays in the buffer |
| `Framing.PoisonedIff` | SBOL DB Server/server.cpp:1015-1021 | the heads that poison a connection in plain numbers: a declared body below 4 or above 8190, the two lengths that wrap around included |
| `Framing.WholeIff` | SBOL DB Server/server.cpp:1015-1021 | the frames that can be delivered in plain numbers: from 6 to 8192 bytes, the first two of which are the length of the rest |
| `Framing.OneCallIs` | SBOL DB Server/server.cpp:1009-1033 | one call in plain numbers: if the first two bytes are a length from 4 to 8190 and that many bytes follow, exactly this frame leaves and the bytes behind it stay; otherwise everything stays |
| `Framing.FullBufferIsReady` | SBOL DB Server/server.cpp:978-980 | a full receive buffer holds a complete head frame unless its head is poisoned, so receiving cannot deadlock |
| `Framing.PendingFits` | SBOL DB Server/server.cpp:978-1033 | the buffered bytes never exceed 8192 in any schedule recv can produce |
| `Servers.CheckClientPackets` | SBOL DB Server/server.cpp:790-808 | a frame of at least 6 bytes is copied over the packet buffer, its own length becomes the size, an oversized one disconnects and any other goes to the gate; fewer bytes do nothing |
| `Servers.FramePresentedIff` | SBOL DB Server/serverpacket.cpp:31-37 | the handler sees the delivered frame exactly when the frame is shorter than 8192 bytes or the buffer already held it; a frame of exactly 8192 bytes is consumed but leaves the previous packet in place |
| `Servers.ProcessRecv` | SBOL DB Server/server.cpp:1009-1033 | the new bytes join the pending ones, and the head frame leaves and is handed over exactly if its length is from 4 to 8190 and it is complete; all received bytes stay accounted for, whatever the size flag was left at |
| `Servers.NoteBytes` | SBOL DB Server/server.cpp:1015-1020 | after the first half the declared size is known exactly when two bytes are there |
| `Servers.Deliver` | SBOL DB Server/server.cpp:1021-1031 | after the second half the head frame is consumed and handed over and the pending bytes are what followed it |
| `Servers.Shift` | SBOL DB Server/server.cpp:1025-1029 | the bytes behind the delivered frame move to the front of the buffer in place |
| `Servers.Recv` | SBOL DB Server/server.cpp:974-1008 | every outcome of recv: bytes, zero bytes with or without a reset, would-block with and without buffered bytes, and an error that disconnects |
| `Servers.PollUntilIdle` | SBOL DB Server/server.cpp:1002-1006 | polling a quiet socket delivers all complete buffered frames, one each time, with the buffered length decreasing |
| `Reuse.ReuseShowsIff` | SBOL DB Server/server.cpp:1158-1165 | slot reuse: along any schedule of receives, transmissions, replies, old replies, broadcasts, handshakes and heartbeats, a new occupant of a slot closed at time t and one of a brand-new slot see the same at every point if and only if t is 0, or the first client heartbeat or turn after time 0 is a client heartbeat or a turn later than t + 30 |
| `Reuse.ClockShowsIff` | SBOL DB Server/server.cpp:1161-1165 | the same for any two open slots that differ in the time of the next heartbeat and, while unauthenticated, in the old reply: exactly when the first operation that sets the earlier time sets the later one |
| `Reuse.ClocksFollow` | SBOL DB Server/server.cpp:1161-1165 | under that condition the sends of the old reply along the schedule also terminate in both slots or in neither, and the times of the next heartbeat agree from the first operation on that sets them |
| `Reuse.ReuseShows` | SBOL DB Server/server.cpp:1161-1165 | a schedule that tells them apart: at 1000 a brand-new slot is sent its first heartbeat, a slot closed at 990 nothing |
| `Reuse.ClientBeatHides` | SBOL DB Server/Packets/ServerAuthPackets.cpp:52-56 | after a client heartbeat with tick 5, which needs no authentication, both are sent one at 1000, for the reused slot ten seconds after the closing |
| `Reuse.ServeNewOccupant` | SBOL DB Server/server.cpp:1138-1165 | whatever state a slot was left in, once it is initialised, the closing turn is over and a new socket is in it, every schedule leaves it with what the schedule and the time and tick of the closing determine; it has queued exactly the frames of its replies, and the bytes sent are the beginning of them |
| `Reuse.ServeReused` | SBOL DB Server/client.cpp:17-37 | a slot that was used before next to a brand-new one over the same schedule: under that condition they agree on deliveries, pending bytes, packet buffer, queue, bytes sent, mark, authentication and gate verdicts, whatever hassize, the old reply and the bytes behind the counters held |
| `Reuse.RepeatTerminatesIff` | SBOL DB Server/Packets/ClientRequestsPackets.cpp:741 | after any schedule one more send of the old reply terminates if and only if the client is not authenticated, the packet last built is not sent at all, or its padded size plus twice the number of its sends, broadcasts and this one included, is below 8192 |
| `Reuse.RepeatsStickIff` | SBOL DB Server/Packets/ClientAuthPackets.cpp:444 | in any slot, after a handshake n requests that no handler knows terminate if and only if n is below 4079 |
| `Reuse.RepeatsAreTheSame` | SBOL DB Server/client.cpp:38-91 | the old reply sent again is the frame it was at first, on any slot |
| `Schedules.Play` | SBOL DB Server/server.cpp:1138-1165 | from any sound state of a slot and along any schedule in which no old reply is sent for ever, the result is a function of the bytes received, consumed, queued and sent, the packet buffer, the session, the time of the next heartbeat and the old reply: the size flag, the noted size and the bytes behind the counters do not matter |
| `Schedules.ReceiveAll` | SBOL DB Server/server.cpp:974-1033 | over any schedule of chunks and empty polls, deliveries and kept bytes are those of the polling model, and packet buffer, disconnect mark and verdicts are a function of the schedule |
| `Reuse.RepliesAreSent` | SBOL DB Server/server.cpp:931-973 | over any schedule the slot queues exactly the frames of its replies, heartbeats and broadcasts in order, an old reply being the frame it was at first, and what is on the wire is the beginning of them, however much the socket takes at a time |
| `Schedules.FeedsArePolls` | SBOL DB Server/server.cpp:974-1033 | the receiving side of a schedule is the polling model that follows the recursive parser |
| `Schedules.SendReply` | SBOL DB Server/client.cpp:38-91 | any sequence of builder calls on the reply packet followed by a send terminates and queues what the built packet emits, whatever the packet held before; for calls that fit, this is the one frame with their fields in order |
| `Servers.Send` | SBOL DB Server/server.cpp:931-973 | the socket is offered the rest of the last frame or else the next queued frame; the bytes it takes go on the wire, the others are kept, and no byte is lost or reordered, with would-block and errors covered |
| `Servers.Load` | SBOL DB Server/server.cpp:939-944 | with an empty send buffer the next entry leaves the queue and its frame becomes the unsent bytes |
| `Servers.Transmit` | SBOL DB Server/server.cpp:963-970 | the unsent rest moves to the front of the send buffer in place and the wire gains exactly what was taken |
| `Clients.Client.Initialize` | SBOL DB Server/client.cpp:17-37 | any slot with its buffers becomes as good as new: no buffered, queued or delivered bytes, closed, unauthenticated, blank key; hassize keeps its value |
| `Clients.Client.constructor` | SBOL DB Server/client.cpp:10-13 | a new slot meets the same description, whatever the allocation left in hassize |
| `Clients.Client.Send` | SBOL DB Server/client.cpp:38-91 | a closed slot gains nothing, more than 8177 bytes mark it for disconnection, fewer than 4 are refused, and anything else adds exactly one frame to the queue |
| `Clients.Client.Pad` | SBOL DB Server/client.cpp:75-77 | the padding loop stops at the padded size with zeros behind the cursor, provided they fit |
| `Clients.Client.AddToSendQueue` | SBOL DB Server/client.cpp:239-246 | the body length goes in front, the whole frame is copied into a zeroed entry at the end of the queue, and the byte sum of the sending side is kept |
| `Clients.Client.GetFromSendQueue` | SBOL DB Server/client.cpp:247-261 | the queue is first in, first out; an empty queue gives a zeroed entry |
| `Clients.Client.ProcessPacket` | SBOL DB Server/client.cpp:96-149 | the gate: an unmarked client's handler of type 0 to 5 runs if and only if the client is authenticated and the body has 16 bytes, or it is not and the type is 0; the same for the call behind the table, for the refusal, which disconnects, and for packets that are ignored; as in a 32-bit build |
| `Clients.Client.SendAuth` | SBOL DB Server/client.cpp:289-301 | the handshake reply is one frame built by the append calls and nothing else of the slot changes |
| `Clients.Client.SendHeartBeat` | SBOL DB Server/client.cpp:302-312 | the heartbeat is one frame on an open slot; on a closed slot it is only built |
| `Clients.AuthReplyIsSendable` | SBOL DB Server/client.cpp:289-301 | the handshake reply is always accepted and is a frame of 34 bytes |
| `Clients.AuthReplyFrame` | SBOL DB Server/client.cpp:288-301 | the answer to a handshake byte by byte |
| `Clients.HeartBeatFrame` | SBOL DB Server/client.cpp:302-312 | a heartbeat byte by byte |
| `Outgoing.Lockstep` | SBOL DB Server/serverpacket.h:48-57 | cursor and size stay equal through every sequence of builder calls, refused appends and wrap-around included |
| `Outgoing.BuiltPacketsAreSendable` | SBOL DB Server/client.cpp:38-91 | every packet the builder calls can produce is refused as too short, answered with a disconnect as too long, or sent without the padding loop sticking |
| `Outgoing.FirstSend` | SBOL DB Server/client.cpp:48-77 | the frame of a first send is the body length, the built bytes and zeros, with a body that is the size minus 2, at least 17, rounded up to 16, between 32 and 8176 |
| `Outgoing.FieldsAreWritten` | SBOL DB Server/serverpacket.h:47-57 | for builder calls that fit, the packet holds type and subtype in its head, then every field in order, numbers low byte first, texts and arrays filled up with zeros, and zeros behind them |
| `Outgoing.FieldStands` | SBOL DB Server/serverpacket.h:47-57 | every field stands where the fields before it end |
| `Outgoing.ReplyFrame` | SBOL DB Server/client.cpp:38-91 | the frame of such a reply: length, type, subtype, the fields in order, and zeros up to the least multiple of 16 above 16 |
| `Outgoing.RemoveReply` | SBOL DB Server/Packets/ClientRequestsPackets.cpp:731-741 | the reply to Remove Team Member byte by byte |
| `Outgoing.PadToIs` | SBOL DB Server/client.cpp:75-77 | the padded size is a multiple of 16 above 16, less than 16 bytes longer than any body above 16, and 32 for the others |
| `Outgoing.GainIs` | SBOL DB Server/client.cpp:38-91 | by size: from 4 to 8177 bytes a send queues one frame, below 4 it does nothing, above 8177 it marks the slot |
| `Outgoing.PadToIsLeast` | SBOL DB Server/client.cpp:75-76 | the padded size is the least size at which the loop condition is false |
| `Outgoing.PaddingTerminatesIff` | SBOL DB Server/client.cpp:75-76 | the padding loop terminates if and only if all padding bytes fit behind the cursor; otherwise it turns for ever |
| `Outgoing.FrameIsOutbound` | SBOL DB Server/client.cpp:239-246 | every frame sent is whole, in 16-byte blocks, of 34 to 8178 bytes, and carries its own length |
| `Outgoing.Resend` | SBOL DB Server/client.cpp:54-77 | sending a sent packet object again emits the same frame and moves the cursor by two, if and only if two more bytes fit |
| `Outgoing.BroadcastIsIdempotent` | SBOL DB Server/server.cpp:1172-1178 | the first k sends of one packet object all terminate if and only if its padded size plus 2k is below 8192, and then emit identical frames |
| `Outgoing.TeamDataSticks` | SBOL DB Server/Packets/ClientRequestsPackets.cpp:565-619 | a broadcast that sticks: the team data of 310 members is a packet of 8167 bytes, which goes out to seven open slots and never ends for eight |
| `Tables.Server.SendToAll` | SBOL DB Server/server.cpp:1172-1178 | every open slot gains exactly one frame, the same one for all, and every closed slot is left alone, although the packet object changes with every send |
| `Tables.Server.SendOwn` | SBOL DB Server/server.cpp:1172-1178 | broadcasting a slot's own reply packet, if it is not too long and there is room, keeps every slot of the server sound and the table as it is |
| `Tables.Server.Relay` | SBOL DB Server/Packets/ClientOperationsPackets.cpp:4-61 | the chat handler on the server: every open slot's queue gains one and the same frame, receivers decode from it what the server decoded if and only if the text ends in time, and closed slots and the table stay as they are |
| `Tables.TurnsFollow` | SBOL DB Server/server.cpp:1172-1178 | after any number of turns of the broadcast loop the packet object still emits the first frame and exactly the open slots passed so far have gained it |
| `Packet.StringStaysInside` | SBOL DB Server/serverpacket.cpp:111-121 | a C string read from inside the buffer always ends inside it, because no writer ever stores a non-zero byte at the last index |
| `Packet.ReadLEAt` | SBOL DB Server/serverpacket.h:77-88 | an integer stored by append is read back by get |
| `Bytes.FourBytes` | SBOL DB Server/serverpacket.h:47-57 | a number in memory, low byte first, in plain numbers |
| `Packet.ReadStringAt` | SBOL DB Server/serverpacket.cpp:111-121 | a text shorter than its field and free of NULs is read back by getStringA |
| `Packet.BuiltAppended` | SBOL DB Server/serverpacket.h:47-57 | appending to a packet under construction adds exactly the field and leaves everything behind it clear |
| `Packet.BuiltAppendedString` | SBOL DB Server/serverpacket.cpp:69-80 | appending a short text adds the text padded with zeros to its width |
| `Packet.ServerPacket.Append` | SBOL DB Server/serverpacket.h:47-57 | append on the object: the strict bound, the bytes written, cursor and size moved with uint16 wrap |
| `Packet.ServerPacket.AppendArray` | SBOL DB Server/serverpacket.cpp:21-29 | the same for arrays |
| `Packet.ServerPacket.AppendString` | SBOL DB Server/serverpacket.cpp:69-80 | the bound looks at the text, the cursor moves by the width, and the text goes in up to its first NUL with a terminator |
| `Packet.ServerPacket.SetArray` | SBOL DB Server/serverpacket.cpp:31-37 | the bytes are placed at the offset, or nothing happens at 8192 and above |
| `Packet.ServerPacket.Get` | SBOL DB Server/serverpacket.h:77-88 | the value at the cursor and the cursor behind it; past the end 0 and no move |
| `Packet.ServerPacket.GetArray` | SBOL DB Server/serverpacket.cpp:47-54 | the bytes at the cursor, or the destination as it was when the strict bound fails |
| `Packet.ServerPacket.GetStringA` | SBOL DB Server/serverpacket.cpp:111-121 | the NUL-terminated string at the cursor, which never runs out of the buffer, and the cursor moved by the width |
| `Packet.ServerPacket.ClearBuffer` | SBOL DB Server/serverpacket.cpp:123-128 | cursor, size and all 8192 bytes become zero |
| `SaveRecord.DecodeSave` | SBOL DB Server/Packets/ClientRequestsPackets.cpp:31-65 | the Save decoder with its loops reads exactly the record described field by field, on any buffer contents, bounds failures included |
| `SaveRecord.ProfileLayout` | SBOL DB Server/Packets/ClientRequestsPackets.cpp:31-45 | where the fields of fixed width stand in a Save packet, byte by byte |
| `SaveRecord.ListLayout` | SBOL DB Server/Packets/ClientRequestsPackets.cpp:46-65 | where the bays, cars, items and the sign stand, whatever the counts |
| `SaveRecord.CarLayout` | SBOL DB Server/Packets/ClientRequestsPackets.cpp:50-58 | where the fields of one car stand in its 203 bytes |
| `SaveRecord.ManyLayout` | SBOL DB Server/Packets/ClientRequestsPackets.cpp:46-62 | element i of a list of numbers is the number at place i |
| `SaveRecord.CarsLayout` | SBOL DB Server/Packets/ClientRequestsPackets.cpp:50-59 | car i is read at place i |
| `SaveRecord.DecodeOfEncode` | SBOL DB Server/Packets/ClientRequestsPackets.cpp:31-65 | any buffer holding an encoded record behind the head decodes to that record, whatever else it holds and whatever the stack held |
| `SaveRecord.BuiltSave` | SBOL DB Server/Packets/ClientRequestsPackets.cpp:31-65 | the append calls in Save's field order produce exactly the encoded record, for any number of garages, cars and items that fits |
| `SaveRecord.SaveRoundTrip` | SBOL DB Server/Packets/ClientRequestsPackets.cpp:31-65 | a record built, sent as a frame and received into a packet buffer with any stale contents is decoded to the same record |
| `Chat.ClientOperations` | SBOL DB Server/Packets/ClientOperationsPackets.cpp:4-62 | each of the three subtypes is decoded and rebuilt on a clear reply; any other subtype sends nothing |
| `Chat.MessageLayout` | SBOL DB Server/Packets/ClientOperationsPackets.cpp:9-60 | where the fields of each kind of message stand |
| `Chat.FieldRebuilt` | SBOL DB Server/Packets/ClientOperationsPackets.cpp:11-25 | rebuilding one text field shows the original bytes up to the first NUL and then zeros, even when the text before it ran over its field |
| `Chat.RelayPreservesMessageIff` | SBOL DB Server/Packets/ClientOperationsPackets.cpp:4-62 | for all three kinds, what a receiver decodes from the broadcast frame equals what the server decoded, if and only if the text ends inside the record or right behind it; names that run over their fields do no harm |
| `Chat.LongTextIsCut` | SBOL DB Server/Packets/ClientOperationsPackets.cpp:16-26 | a whole chat frame that the gate admits from any authenticated client, with a text of 79 characters, arrives as a different message |
| `Chat.RelayReachesEveryone` | SBOL DB Server/server.cpp:1172-1178 | a relayed message can be broadcast to fewer than 4032 slots without the padding loop sticking, with identical frames |
| `Sessions.RunsKeepInv` | SBOL DB Server/server.cpp:809-930 | over every run of accepts, packets, drops, reinitialisations and new keys, the index lists exactly the open slots in accept order, no two slots hold the same key pair, and every held pair is the first row of the key table with its iv |
| `Sessions.IndexIsDistinct` | SBOL DB Server/server.cpp:809-824 | the index names no slot twice |
| `Sessions.IndexCounts` | SBOL DB Server/server.cpp:898-930 | the index is as long as the number of open slots, never longer than the table, and there is room for one more exactly when a slot is free |
| `Sessions.AcceptKeepsInv` | SBOL DB Server/server.cpp:898-930 | accepting into the first free slot keeps index, keys and blank slots in order |
| `Sessions.ReinitKeepsInv` | SBOL DB Server/server.cpp:809-829 | reinitialising a slot keeps them in order, the accept order of the others included |
| `Sessions.WithoutOrdered` | SBOL DB Server/server.cpp:816-822 | compaction keeps the accept order of the remaining slots |
| `Sessions.HandshakeKeepsInv` | SBOL DB Server/Packets/ServerAuthPackets.cpp:4-59 | a handshake never lets two slots hold one key pair |
| `Sessions.HandshakeSucceedsIff` | SBOL DB Server/Packets/ServerAuthPackets.cpp:11-50 | an unauthenticated client succeeds if and only if its request has 0x20 bytes, its iv is in the key table and no slot holds that pair |
| `Sessions.HandshakeRefusesIff` | SBOL DB Server/Packets/ServerAuthPackets.cpp:11-50 | every other request of 0x20 bytes from an unauthenticated client marks its slot and changes nothing else, for an iv that is not in the key table as for a pair that is held; a request of another size or from an authenticated client changes nothing |
| `Sessions.LookupIsFirst` | SBOL DB Server/Packets/ServerAuthPackets.cpp:18-25 | the key row is the first one with the iv |
| `Sessions.GateIs` | SBOL DB Server/client.cpp:134-147 | the gate of the table in the same plain numbers |
| `Sessions.PairBecomesUsable` | SBOL DB Server/Packets/ServerAuthPackets.cpp:27-39 | in every state of every run, for every authenticated holder and every slot that is not authenticated, the holder's pair is refused to that slot while the holder lives and granted to it once the holder's slot is reinitialised |
| `Sessions.PairChangesHands` | SBOL DB Server/Packets/ServerAuthPackets.cpp:11-50 | at the end of any run, dropping and reinitialising the holder and then sending its iv from an open, unmarked slot authenticates that slot with the pair and changes no other slot |
| `Sessions.RunsAreGated` | SBOL DB Server/client.cpp:96-149 | over every run, a handler for a non-zero type runs on a slot only after a successful handshake on it since it was opened, and none runs between its disconnection and its next accept |
| `Sessions.SinceMeans` | SBOL DB Server/client.cpp:96-149 | the history condition of that theorem in terms of positions in the log |
| `Tables.Server.constructor` | SBOL DB Server/server.cpp:32-43 | the server invariant holds at the start: the empty table, no two slots sharing any buffer, every slot as good as new |
| `Tables.Server.FreeConnection` | SBOL DB Server/server.cpp:1040-1051 | the scan finds the first slot whose socket is closed, or none |
| `Tables.Server.GetClientCount` | SBOL DB Server/server.cpp:1180-1188 | the count of open sockets equals the length of the index and never exceeds the table |
| `Tables.Server.AcceptConnection` | SBOL DB Server/server.cpp:898-930 | the first waiting connection goes into the first free slot, where it finds an empty slot but for the time of the next heartbeat and the old reply, and to the end of the index; all other slots keep their values; with no slot free all waiting ones are dropped; the server invariant is kept |
| `Tables.Server.Compact` | SBOL DB Server/server.cpp:816-822 | the in-place compaction removes one slot number and keeps the order of the others |
| `Tables.Server.InitializeConnection` | SBOL DB Server/server.cpp:809-829 | the slot leaves the index and becomes as good as new, the table step is the reinitialisation, and every other slot stays sound because nothing is shared |
| `Tables.Server.Authenticate` | SBOL DB Server/Packets/ServerAuthPackets.cpp:11-50 | lookup, duplicate scan over all slots and transition to authenticated, as one step of the table |
| `Tables.Server.ServerAuth` | SBOL DB Server/Packets/ServerAuthPackets.cpp:4-59 | the handshake handler: the same step, and the reply queued exactly on success |
| `Tables.Server.Beat` | SBOL DB Server/server.cpp:1161-1165 | a heartbeat is queued exactly if its time has come and the slot is open, also on a slot that this turn has just closed, where only the reply packet and the time of the next heartbeat are left behind |
| `Tables.Server.ServeConnection` | SBOL DB Server/server.cpp:1138-1165 | one turn on an open slot, whatever send and recv answer and whatever the handler builds: it keeps the server invariant, is a run of table events whose handler runs are exactly the handler this turn ran, and leaves all slots as the turn on values does; it hangs if and only if the handler sends the old reply, or broadcasts a new one, without room for the padding; while the slot stays open, the wire has gained exactly what the socket took of the rest of the last frame or of the next one, the received bytes what recv brought, at most the head frame of these was consumed, and the heartbeat is queued last exactly when its time, as the client's own heartbeat packet may have set it, has passed; a mark, a failing send or receive or a refused packet closes the slot in the same turn, and it is then as good as new with a heartbeat in its reply packet |
| `Rounds.TurnSends` | SBOL DB Server/server.cpp:931-973 | the send half of a turn in bytes: with a writable socket that takes n bytes the wire gains the first n bytes of the rest of the last frame, or of the next frame when there is none; otherwise nothing; no byte is lost |
| `Rounds.TurnReceives` | SBOL DB Server/server.cpp:974-1033 | the receive half in bytes: what recv brings joins what was buffered, a complete head frame of a legal length is consumed, shown to the gate and judged, anything else stays; a failing send or receive and a refusal mark the slot, nothing else does |
| `Rounds.ServedMoves` | SBOL DB Server/server.cpp:1138-1165 | these bytes survive the rest of the turn, and a slot that was marked, or whose send or receive fails, or whose packet is refused, is closed in the same turn |
| `Rounds.ServedShows` | SBOL DB Server/server.cpp:1158-1165 | the end of a turn: an open slot is unmarked and has its heartbeat exactly when it is due, a closed one is vacant but for that |
| `Rounds.ActSends` | SBOL DB Server/Packets/ClientRequestsPackets.cpp:18-742 | the frames a handler queues: a reply or an old reply on its own slot, a broadcast on every open slot, the answer to a handshake exactly if it succeeds, and nothing on any other slot |
| `Rounds.ActIs` | SBOL DB Server/Packets/ClientRequestsPackets.cpp:22-741 | the dispatch of types and subtypes in plain numbers |
| `Rounds.HangsMeans` | SBOL DB Server/client.cpp:75-77 | a handler hangs exactly when its sends, one or one for every open slot, do not all terminate |
| `Tables.Server.RunHandler` | SBOL DB Server/Packets/ClientRequestsPackets.cpp:18-742 | what the handler of each type and subtype does to the slots: the handshake, the client's heartbeat, a chat broadcast, a reply, a broadcast reply, the old reply again or nothing; the table changes by the handshake step and by the marks that a reply over 8177 bytes leaves, and every other closed slot stays as good as new |
| `Tables.DropAllMarks` | SBOL DB Server/server.cpp:1172-1178 | the marks that a broadcast of a packet over 8177 bytes leaves are those of dropping every open slot |
| `Tables.Server.ServeRound` | SBOL DB Server/server.cpp:1102-1170 | one round, an accept and a turn on every open slot in order unless one hangs, is again a run of table events, keeps the server invariant, and leaves the slots as the round on values does |
| `Tables.RunServer` | SBOL DB Server/server.cpp:1102-1170 | the server from its start over any schedule of rounds, up to a turn that hangs: the invariant holds, every closed slot is as good as new, the slots and the handlers that ran are exactly those of the run on values, the table is a run of the step relation from the empty table, and the handlers that ran are those of that run's log, each of them allowed when it ran; every open slot has come about by a schedule; only a handler of type 1 or 2, so one of an authenticated client, can hang it |
| `Lives.RunsLive` | SBOL DB Server/server.cpp:1102-1170 | in every state of every run that has not hung, whatever sockets, database and clock answer, every open slot is the outcome of a terminating schedule from a slot that a new client cannot tell from a brand-new one but for the time of the next heartbeat, and every closed slot is vacant but for that time and the old reply |
| `Lives.TurnLives` | SBOL DB Server/server.cpp:1138-1165 | one turn, with its handler and its broadcasts to the other slots, keeps that |
| `Teams.RunsKeepTeamsIff` | SBOL DB Server/Packets/ClientRequestsPackets.cpp:270-504 | over every run of create, invite, comment, delete, area, remove, register and Save from sound tables, such as empty ones: that every team's leader has that team's id, names are unique up to lower-casing, and every team id is NULL, 0 or a live team holds all the way if and only if every Save writes a leader's own team id, and for others NULL, 0 or a live team |
| `Teams.HandleKeepsInv` | SBOL DB Server/Packets/ClientRequestsPackets.cpp:270-738 | one request keeps that invariant |
| `Teams.SaveKeepsInvIff` | SBOL DB Server/Packets/ClientRequestsPackets.cpp:67-90 | Save keeps the invariant if and only if it writes a leader's own team id, and for others NULL, 0 or a live team |
| `Teams.SaveCanBreakInv` | SBOL DB Server/Packets/ClientRequestsPackets.cpp:67-90 | the run that breaks it: from empty tables, licence 7 registers, founds the team "A" and saves without a team id |
| `Teams.LeadsAtMostOne` | SBOL DB Server/Packets/ClientRequestsPackets.cpp:270-320 | no account leads two teams |
| `Teams.UpdateHitsOne` | SBOL DB Server/Packets/ClientRequestsPackets.cpp:361-370 | an update restricted to the leader's licence changes exactly the leader's own team |
| `Teams.CreateSucceedsIff` | SBOL DB Server/Packets/ClientRequestsPackets.cpp:270-328 | creation succeeds if and only if the account exists without a team and the name is free up to lower-casing; then exactly the new team and its founder's id are added |
| `Teams.InviteChangesOneBit` | SBOL DB Server/Packets/ClientRequestsPackets.cpp:361-370 | the invite update of a leader changes bit 0 of its own team's flags and nothing else in the database |
| `Teams.DeleteEmptiesTheTeam` | SBOL DB Server/Packets/ClientRequestsPackets.cpp:469-481 | deletion removes the team, leaves no account in it, and leaves members with a non-zero area at id 0 instead of NULL |
| `Teams.CommentReachesOneTeam` | SBOL DB Server/Packets/ClientRequestsPackets.cpp:396-449 | the comment update succeeds if and only if the caller leads a team, sets that team's comment, and changes nothing else in the database |
| `Teams.RemoveTakesOutOne` | SBOL DB Server/Packets/ClientRequestsPackets.cpp:678-729 | a removal succeeds if and only if a leader names another member of its team; it takes exactly that account out of the team's members and leaves other accounts, memberships and teams as they were |
| `Teams.RemoveChangesTwoRows` | SBOL DB Server/Packets/ClientRequestsPackets.cpp:702-729 | the two rows of a removal: the member's team id becomes NULL, or 0 if it has an area, and the team counts one less than the members it still has, but at least one |
| `Teams.AreaChangesOneMember` | SBOL DB Server/Packets/ClientRequestsPackets.cpp:638-677 | the leader sets the area of exactly the member of its team that it names; any other request leaves everything as it was |
| `Teams.ResultCodes` | SBOL DB Server/Packets/ClientRequestsPackets.cpp:340-503 | the reply codes of invite, comment and delete: 2 without a team, 3 for a member that is not the leader, 0 for the leader; a request with another code changes nothing |
| `Teams.LowerIs` | SBOL DB Server/Packets/ClientRequestsPackets.cpp:275 | names differ in more than the case of ASCII letters |
| `Teams.OnlyTheLeaderChangesATeam` | SBOL DB Server/Packets/ClientRequestsPackets.cpp:340-738 | an existing team row changes or disappears only through invite, comment, delete or remove by its leader |
| `Teams.OnlyTheLeaderChangesMembers` | SBOL DB Server/Packets/ClientRequestsPackets.cpp:340-738 | an account's team columns change only when it founds a team or through the leader of the team it is in |
| `Teams.LeadersStay` | SBOL DB Server/Packets/ClientRequestsPackets.cpp:678-729 | no request but Save and Delete takes a team from its leader; in particular a leader is never removed as a member |
| `Teams.TeamTables.CreateTeam` | SBOL DB Server/Packets/ClientRequestsPackets.cpp:270-339 | the create handler with its selects, insert, second select by name and update, and its result codes |
| `Teams.TeamTables.UpdateInvite` | SBOL DB Server/Packets/ClientRequestsPackets.cpp:340-394 | the invite handler and its result codes |
| `Teams.TeamTables.UpdateComment` | SBOL DB Server/Packets/ClientRequestsPackets.cpp:396-449 | the comment handler and its result codes |
| `Teams.TeamTables.DeleteTeam` | SBOL DB Server/Packets/ClientRequestsPackets.cpp:451-503 | the delete handler with the three-valued assignment to teamid |
| `Teams.TeamTables.AdjustArea` | SBOL DB Server/Packets/ClientRequestsPackets.cpp:638-677 | the area handler |
| `Teams.TeamTables.RemoveMember` | SBOL DB Server/Packets/ClientRequestsPackets.cpp:678-738 | the remove handler with its fresh member count |
| `Teams.TeamTables.SaveTeam` | SBOL DB Server/Packets/ClientRequestsPackets.cpp:67-90 | Save changes the team id of the one account, a negative id to NULL, and no other column, account or team; the team invariant survives if and only if the id is the leader's own, or for others none, 0 or a live team |
| `Garage.SaveRefinesOverride` | SBOL DB Server/Packets/ClientRequestsPackets.cpp:130-167 | Save's select-then-update-or-insert loop equals overriding a map by the packet's cars from left to right, and touches no other licence and no impounded row |
| `Garage.SavedCars` | SBOL DB Server/Packets/ClientRequestsPackets.cpp:130-167 | column by column: after Save a bay the packet names shows carID, KMs, condition and data of the last car for it, whether its row was updated or inserted, and every other bay what it showed |
| `Garage.SaveKeepsRows` | SBOL DB Server/Packets/ClientRequestsPackets.cpp:130-167 | rows keep place, licence, bay and flag, impounded rows and those of other licences everything; new rows are the licence's own and not impounded |
| `Garage.LiveMeans` | SBOL DB Server/Packets/ClientRequestsPackets.cpp:130-167 | the map of a garage holds exactly the cars of its rows that are not impounded |
| `Garage.SwapIsInvolution` | SBOL DB Server/Packets/ClientRequestsPackets.cpp:240-245 | swapping the same two bays twice restores the table |
| `Garage.SwapRefines` | SBOL DB Server/Packets/ClientRequestsPackets.cpp:240-245 | a swap keeps one car per bay and every row, and exchanges exactly the two bays of the licence |
| `Garage.MoveKeepsUniqueIff` | SBOL DB Server/Packets/ClientRequestsPackets.cpp:246-250 | a move keeps one car per bay if and only if it does not put a car into an occupied bay; no row is lost and only bays change |
| `Garage.MoveCanStackCars` | SBOL DB Server/Packets/ClientRequestsPackets.cpp:246-250 | a run that stacks two cars: a Save parks them in bays 0 and 1, a move puts the first into bay 1, and only one of them is shown afterwards |
| `Garage.MoveRefines` | SBOL DB Server/Packets/ClientRequestsPackets.cpp:246-250 | a move into an empty bay carries the car over and empties its old bay |
| `Garage.RemoveRefines` | SBOL DB Server/Packets/ClientRequestsPackets.cpp:255-268 | removing a bay empties exactly that bay |
| `Garage.RemoveDeletes` | SBOL DB Server/Packets/ClientRequestsPackets.cpp:255-268 | it deletes every row of the bay, impounded ones included, and no other row |
| `Garage.RemoveRowByRow` | SBOL DB Server/Packets/ClientRequestsPackets.cpp:255-268 | removal looks at each row by itself, so the rows that stay keep their order and number |
| `Garage.RunsKeepGarageIff` | SBOL DB Server/Packets/ClientRequestsPackets.cpp:130-269 | over every run, one car per bay holds all the way if and only if no request moves a car onto another one |
| `Garage.GarageTable.SavePacketCars` | SBOL DB Server/Packets/ClientRequestsPackets.cpp:130-167 | the loop over the packet's cars keeps one car per bay and overrides the garage that is shown by the cars from left to right: every bay named shows carID, KMs, condition and data of the last car for it |
| `Garage.GarageTable.SwapCars` | SBOL DB Server/Packets/ClientRequestsPackets.cpp:229-254 | the swap and move handler: every row keeps its place and its car, only bays of the licence are renamed, and one car per bay survives if and only if a move does not hit an occupied bay |
| `Garage.GarageTable.RemoveCar` | SBOL DB Server/Packets/ClientRequestsPackets.cpp:255-269 | exactly the rows of the bay go, impounded ones included, the garage that is shown loses exactly that bay, and one car per bay is kept |
| `Hex.DecodeOfEncode` | SBOL DB Server/server.cpp:44-74 | the hexadecimal text decodes back to the bytes, embedded zeros included |
| `Hex.DigitsAre` | SBOL DB Server/server.cpp:44-74 | the digits are 0 to 9 and A to F |
| `Hex.EncodeIsInjective` | SBOL DB Server/server.cpp:44-74 | different byte strings have different texts |
| `Hex.EncodedIs` | SBOL DB Server/server.cpp:44-58 | how many bytes are encoded: the length given, or else the bytes before the first NUL, at most 4096 |
| `Hex.HexString` | SBOL DB Server/server.cpp:44-58 | with an explicit length the loop emits exactly that many bytes as digits, with length 0 the bytes before the first NUL or the 4096 limit, and a terminator |
| `Hex.HexStringOwn` | SBOL DB Server/server.cpp:59-74 | the same into the server's own buffer, which every length up to 4096 fits |

## Left out

- Sockets, `select`, threads, clocks and the log: `recv`, `send` and `accept` are arbitrary outcomes given as parameters, the server loop is a sequence of rounds, and the clock and the random number of the handshake are parameters.
- Database connections and SQL text: statements are their effect on the tables, in SQLite's reading of them. In `Garage` and `Teams` `Open` always succeeds; otherwise each of these handlers changes nothing and replies 1. In a turn of the server loop it may fail.
- The replies of the team handlers, `Get Team Data` and the whole of `ClientAuthPackets.cpp`: they only read the tables and build packets; their builder calls are covered by `Outgoing.Lockstep`.
- The rival, item and sign tables and the remaining account columns of Save: the same select-then-update-or-insert as for cars, one row each.
- The decimal text of KMs in SQL: a car's distance is an opaque column.
- Key bytes: iv and key are opaque values of 16 and 32 bytes; that SQLite hands them over as NUL-terminated text is not modelled.
- Windows specifics of `strcpy_s`, which fills the rest of its destination in debug builds.
- `uint32_t` wrap-around in the bounds of `appendArray` and `setArray`, which needs arrays of nearly 4 GiB.
- `SERVERPACKET::set`, `setString` and the two-argument `getString`, which no modelled handler uses.
- Tables.Server.RunHandler: it is called on an open slot whose packet size is the length in its buffer, as the receive path leaves it; what a reply contains is an arbitrary sequence of builder calls, not tied to the account, garage and team tables of `Garage` and `Teams`; a call behind the handler table does nothing; a broadcast that hangs is cut before its first send, while the code queues frames on the slots before the one it hangs on, which no later turn transmits.
- Tables.RunServer: fewer than 4032 slots are required, which is what keeps a chat broadcast from sticking; the server has ten.
- Servers.ProcessRecv: the handler is not called from inside the delivery; the verdict is returned and `Tables.Server.ServePacket` has the handler run after the shift, which no handler can observe because none reads the receive buffer.
- Hex.HexString: lengths above 4096, for which the server's own text buffer would overflow, are excluded by the precondition of `Hex.HexStringOwn`.
- Teams.TeamTables.CreateTeam: the team id in the reply, which the code never sets because of a shadowed variable, is not part of the result.
- Teams.TeamTables.RemoveMember: the member count is modelled as the code computes it; that it is one too low afterwards is not corrected.
