# GameNetwork, verified

A Dafny model of the UDP game-networking plugin: its checksums, its packet
format, the server and client objects, and the session protocol they run over a
network that may drop, duplicate, reorder and corrupt datagrams. Verify it with
`dafny verify dfyconfig.toml`.

## What is modelled

**Checksums.** `Crc` is the CRC-32 of section 8 of RFC 1952 (the one of section
3.2.9 of IEEE 802.3) as a register that shifts right; `Crc32` holds the two
engines of CRC.h, which shift left and reverse bits on the way in and out, and
proves both equal to it. `uint_fast32_t` is 32 bits, as on the project's toolset
(NetworkPlugin/NetworkPlugin.vcxproj:32). The detection theorems are linear
algebra over this register. `Checksums` has the Adler and Fletcher loops on a
range-checked 32-bit type, so the absence of overflow is part of the proof.

**Packets.** `Buffers` is the mutable cursor over a byte array. The bounds checks
are computed with the widths of the source's arithmetic: where the sum they
compare overflows and a field passes that does not fit, the outcome is `Fault` and
nothing is promised about the buffer; `ChecksAreExact` says when that is. A failed
receive leaves a buffer of size -1, which both packet checks take. Both checks are
characterised by what they accept: exactly the datagrams that sealing produces. `Packets` writes, checks and reads the six packet types through it.
HMAC-SHA256 is any function to 32 bytes, a public key any byte string.

**Sessions.** `Servers` and `Clients` give the effect of every operation on the
tables and fields as functions; the classes in `ServerObject` and `ClientObject`
carry the operations out in place and are proved to have exactly these effects.
`ServerOutcomes` and `ClientOutcomes` say exactly what each arrival does, whoever else
is pending or connected, and what is ignored; `Exchanges` follows every kind of packet
from the call that sends it to what the receiver makes of it.
`Sessions` puts one server and any number of clients with distinct addresses on a
network. Each `Listen`, `Connect`, `SendDisconnect`, `PropagateGameData`,
`KickClient` and mode switch is one step, and so is each detached responder
thread, which may fire at any later time. A run is the list of the states passed
through with the step taken from each to the next. `net` holds every datagram ever sent,
and any of them may arrive, any number of times. The results in `History`,
`Delivery` and `Disconnects` hold for every run; `Handshake` and `Failures`
exhibit runs from the initial state.

The HMAC is ideal here: a message verifies under the key it was sealed with and
no other. A derived key is never the all-zero key. Diffie-Hellman is a pair of
functions whose one law is that the agreement commutes. Participants are honest:
they send what the code sends.

## The code as written and as intended

NetworkPlugin/src/Server.cpp:262, 388 and 394 store the boolean of a comparison
where a slot index is meant, so the slot used is always 1; lines 195 and 359 test
a challenge index with `> 0` where line 394 has `>= 0`. The server therefore
carries a constant `indexing`. `AsWritten` is the code; `AsIntended` stores the
index that was found and tests it with `>= 0`. Handshake agreement, distinctness
of addresses, fan-out accounting and in-order delivery are proved for both.

Three things fail as written. Each has its exact condition, and `Failures` has a
run of client and server steps that gets there:

- the connection count survives a removal exactly if the client was not connected
  or slot 1 was (`Tables.RemoveKeepsCount`); in `Failures.AsWrittenMiscounts` two
  clients join, one leaves, and the count is wrong;
- a disconnect frees the sender's slot exactly if that is slot 1
  (`Disconnects.DisconnectAsWritten`); the same run shows it;
- a pending challenge never survives another client's request
  (`Tables.RequestSparesPending`, `Failures.SecondRequestClobbers`), so one
  handshake runs at a time.

Two more behaviours of the code, with either indexing, are kept and characterised.
`Client::Disconnect` resets neither `m_ack` nor `m_sequence`, so delivery is stated
for a client that was given a slot at most once. `Delivery.StaleAckDrops` says
exactly which packets of a later session are lost, and
`Failures.SecondSessionLosesData` is a run that loses one. A data packet that
overtakes the acceptance falls through into the disconnect case
(`Failures.OvertakingDataDisconnects`); in `Failures.HandshakeIsOvertaken` that
leaves a disconnected client in a slot of the server.

## Model

| member | source | states |
|---|---|---|
| Crc32.ReverseBits | NetworkPlugin/include/Network/ErrorDetection/CRC.h:16-30 | the loop stops without underflowing the bit count; for 8 bits the result is the argument shifted up over its reversed low byte, for 32 bits the reversed word |
| Bits.Reverse32Bit | NetworkPlugin/include/Network/ErrorDetection/CRC.h:16-30 | bit i of the reversed word is bit 31-i of the word |
| Bits.Reverse8Bit | NetworkPlugin/include/Network/ErrorDetection/CRC.h:16-30 | bit i of the reversed byte is bit 7-i, and nothing is left above bit 7 |
| Bits.ReverseTwice | NetworkPlugin/include/Network/ErrorDetection/CRC.h:16-30 | reversing twice is the identity, on 32 bits and on the low 8 |
| Crc32.Engine.constructor | NetworkPlugin/include/Network/ErrorDetection/CRC.h:13-14 | the engine starts with a table not yet initialised |
| Crc32.Engine.InitTable | NetworkPlugin/include/Network/ErrorDetection/CRC.h:33-51 | every entry becomes the 8-step remainder of its index; a second call changes nothing |
| Crc32.ShiftOutByte | NetworkPlugin/include/Network/ErrorDetection/CRC.h:41-47 | the inner loop is eight register steps |
| Crc32.Engine.GetCRCTableBased | NetworkPlugin/include/Network/ErrorDetection/CRC.h:53-64 | on every byte string the table-driven engine computes the CRC-32 of RFC 1952 |
| Crc32.Engine.GetCRC | NetworkPlugin/include/Network/ErrorDetection/CRC.h:66-83 | so does the bitwise engine, hence the two agree |
| Crc.RfcUpdateIsRegister | NetworkPlugin/include/Network/ErrorDetection/CRC.h:53-64 | the table loop printed in RFC 1952 and the bitwise register agree from every state |
| Crc.ChecksumAffine | NetworkPlugin/include/Network/ErrorDetection/CRC.h:53-83 | on three strings of equal length, xoring the inputs xors the checksums |
| Crc.BurstChangesChecksum | NetworkPlugin/include/Network/ErrorDetection/CRC.h:53-64 | different strings of equal length whose differing bits lie within 32 consecutive positions have different checksums |
| CrcCheck.CheckValue | NetworkPlugin/include/Network/ErrorDetection/CRC.h:66-83 | the checksum of the digits 1 to 9 is 0xCBF43926, the check value of CRC-32 |
| Packets.BurstIsRejected | NetworkPlugin/src/Packets/Packet.cpp:38-55 | a change behind the first four bytes confined to 32 consecutive bits is always rejected, whatever the packet's length |
| Packets.ProtocolSeparation | NetworkPlugin/src/Packets/Packet.cpp:43-54 | a packet sealed under one protocol id passes the check under another exactly if the two are equal |
| Packets.ProtocolIdIsFletcher | NetworkPlugin/src/Packets/Packet.cpp:7 | the Fletcher checksum of the protocol's name is the id 0xFEFF3171, one of the ids the packet results hold for |
| Checksums.Adler32 | NetworkPlugin/src/ErrorDetection/Checksums.cpp:5-17 | the loop computes the closed form 1 + sum of words and n + weighted sum, modulo 65521, with no overflow |
| Checksums.Fletcher32 | NetworkPlugin/src/ErrorDetection/Checksums.cpp:19-29 | the loop computes the sum and the weighted sum modulo 65535, with no overflow |
| Checksums.Fletcher32_improved | NetworkPlugin/src/ErrorDetection/Checksums.cpp:33-56 | delaying the reduction gives the same checksum for every length, with no overflow |
| Checksums.SumBlock | NetworkPlugin/src/ErrorDetection/Checksums.cpp:40-44 | up to 360 words from any residues are summed exactly |
| Checksums.LargestSafeBlock | NetworkPlugin/src/ErrorDetection/Checksums.cpp:32-40 | a block length is safe from overflow for all residues and words exactly if it is at most 360 |
| Checksums.PackIsShiftOr | NetworkPlugin/src/ErrorDetection/Checksums.cpp:28 | for sums below 2^16, shifting one up and or-ing in the other is adding them, as the loops' contracts do |
| Checksums.SumsCompose | NetworkPlugin/src/ErrorDetection/Checksums.cpp:38-54 | reducing the two sums between two blocks changes neither residue of the whole |
| Checksums.FletcherComposes | NetworkPlugin/src/ErrorDetection/Checksums.cpp:19-29 | the checksum of a concatenation follows from the checksums of its parts and the length of the second |
| Checksums.AdlerComposes | NetworkPlugin/src/ErrorDetection/Checksums.cpp:5-17 | the same for Adler, whose first sum starts at 1 |
| Checksums.ChecksumsOfOne | NetworkPlugin/src/ErrorDetection/Checksums.cpp:5-29 | both checksums of no word and of one word, which with composition determine them everywhere |
| Checksums.FletcherSingleWord | NetworkPlugin/src/ErrorDetection/Checksums.cpp:19-29 | changing one word goes unnoticed exactly between 0x0000 and 0xFFFF |
| Checksums.AdlerSwap | NetworkPlugin/src/ErrorDetection/Checksums.cpp:5-17 | swapping two words goes unnoticed exactly if the words or the positions are congruent modulo 65521 |
| Sequences.Tournament | NetworkPlugin/include/Network/Packets/Packet.h:56-61 | irreflexive, and of two different numbers exactly one is greater |
| Sequences.AgreesWithRfc1982 | NetworkPlugin/include/Network/Packets/Packet.h:56-61 | section 3.2 of RFC 1982 wherever that is defined; at distance 32768 the smaller number wins |
| Sequences.TrueOrder | NetworkPlugin/include/Network/Packets/Packet.h:56-61 | on unbounded counters at most 32767 apart it is their order |
| Sequences.LargestWindow | NetworkPlugin/include/Network/Packets/Packet.h:56-61 | 32767 is the largest distance within which that holds of all counters |
| Buffers.ChecksAreExact | NetworkPlugin/src/Packets/Buffer.cpp:32-87 | a field is written or read exactly if it fits, and refused exactly if it does not and the compared sum did not overflow; in the remaining case it passes the check and faults |
| Buffers.NetworkOrder16 | NetworkPlugin/src/Packets/Buffer.cpp:109-117 | two bytes are read as the digits of a number to the base 256, most significant first |
| Buffers.NetworkOrder32 | NetworkPlugin/src/Packets/Buffer.cpp:99-107 | so are four |
| Buffers.NetworkOrder64 | NetworkPlugin/src/Packets/Buffer.cpp:89-97 | so are eight |
| Buffers.RoundTrip64 | NetworkPlugin/src/Packets/Buffer.cpp:32-98 | writing and reading eight bytes are inverse to each other, so the order written is the order read |
| Buffers.Buffer.Sized | NetworkPlugin/src/Packets/Buffer.cpp:4-12 | a buffer of the given size with the cursor at its start |
| Buffers.Buffer.Init | NetworkPlugin/src/Packets/Buffer.cpp:14-24 | an unused buffer gets memory; a used one is refused and unchanged |
| Buffers.Buffer.WriteLongLong | NetworkPlugin/src/Packets/Buffer.cpp:32-39 | eight big-endian bytes at the cursor and nothing else touched, or refused and nothing touched; no promise where the check overflowed |
| Buffers.Buffer.WriteInteger | NetworkPlugin/src/Packets/Buffer.cpp:41-48 | the same with four bytes |
| Buffers.Buffer.WriteShort | NetworkPlugin/src/Packets/Buffer.cpp:50-57 | the same with two bytes |
| Buffers.Buffer.WriteByte | NetworkPlugin/src/Packets/Buffer.cpp:59-66 | the same with one byte |
| Buffers.Buffer.WriteBuffer | NetworkPlugin/src/Packets/Buffer.cpp:77-87 | the whole block is copied to the cursor and nothing else touched, or refused and nothing touched; no promise where the check overflowed |
| Buffers.Buffer.ReadLongLong | NetworkPlugin/src/Packets/Buffer.cpp:89-98 | the big-endian value at the cursor, which advances by eight, or refused and nothing moves; no promise where the check overflowed |
| Buffers.Buffer.ReadInteger | NetworkPlugin/src/Packets/Buffer.cpp:99-107 | the same with four bytes |
| Buffers.Buffer.ReadShort | NetworkPlugin/src/Packets/Buffer.cpp:109-117 | the same with two bytes |
| Buffers.Buffer.ReadByte | NetworkPlugin/src/Packets/Buffer.cpp:119-127 | the same with one byte |
| Buffers.Buffer.ReadBuffer | NetworkPlugin/src/Packets/Buffer.cpp:139-149 | the bytes at the cursor fill the front of the caller's block, whose rest is unchanged, or refused and nothing moves; no promise where the check overflowed |
| Schemas.WriteFields | NetworkPlugin/src/Packets/Buffer.cpp:32-87 | a list of fields goes in completely exactly if it fits; if one is refused, exactly the fields before it are in |
| Schemas.ReadFields | NetworkPlugin/src/Packets/Buffer.cpp:89-149 | what is read in a layout encodes to the bytes it was read from |
| Schemas.EncodeInjective | NetworkPlugin/src/Packets/Buffer.cpp:32-87 | a layout and its bytes determine the fields |
| Schemas.SchemaRoundTrip | NetworkPlugin/src/Packets/Buffer.cpp:32-149 | writing any list of fields, going back and reading the same layout returns the list; bytes outside the window are unchanged |
| Packets.Write | NetworkPlugin/src/Packets/Packet.cpp:59-178 | each packet type becomes its sealed byte string; a used buffer is refused |
| Packets.WriteCrcSealed | NetworkPlugin/src/Packets/Packet.cpp:59-71 | the checksum over id, type and key stands where the id stood |
| Packets.WriteHmacSealed | NetworkPlugin/src/Packets/Packet.cpp:141-152 | id, type and fields, followed by their HMAC |
| Packets.PacketLayout | NetworkPlugin/include/Network/Packets/Packet.h:9-31 | the six sizes and type values, and where each field and each seal stands |
| Packets.HmacAcceptsGenuine | NetworkPlugin/src/Packets/Packet.cpp:11-36 | a type is accepted exactly if the datagram is some bytes followed by their HMAC that begin with the id and that type |
| Packets.HmacAcceptsSealed | NetworkPlugin/src/Packets/Packet.cpp:11-36 | from 37 bytes on, exactly if sealing the type over the body produces the datagram |
| Packets.HmacSeparation | NetworkPlugin/src/Packets/Packet.cpp:30-34 | an HMAC packet sealed under one protocol id passes under another exactly if the two are equal |
| Packets.CrcAcceptsSealed | NetworkPlugin/src/Packets/Packet.cpp:38-55 | the CRC check accepts a type exactly if sealing the type over the body produces the datagram |
| Packets.CrcThrows | NetworkPlugin/src/Packets/Packet.cpp:38-55 | it throws exactly on one to three bytes and on the four that are the checksum of the id |
| Packets.VerifyPacketHMAC | NetworkPlugin/src/Packets/Packet.cpp:11-36 | on any datagram, short ones and a failed receive included, a type is returned exactly if the datagram is genuine with that type; it never reads outside it |
| Packets.VerifyPacketCRC | NetworkPlugin/src/Packets/Packet.cpp:38-55 | the exact verdict on any datagram, including a failed receive and the sizes on which it throws |
| Packets.Read | NetworkPlugin/src/Packets/Packet.cpp:154-161 | succeeds exactly if the remaining bytes hold the fields, and returns them |
| Packets.SealAndOpen | NetworkPlugin/src/Packets/Packet.cpp:11-183 | for all six types: what Write seals, the matching check accepts with the written type and cursor 5, and Read returns the written packet |
| ServerObject.Server.constructor | NetworkPlugin/src/Server.cpp:8-18 | the host occupies slot 0 and nothing else is taken |
| ServerObject.Server.FindFreeConnectionIndex | NetworkPlugin/src/Server.cpp:32-40 | the first slot not connected, or -1 |
| ServerObject.Server.FindFreeChallengeIndex | NetworkPlugin/src/Server.cpp:42-50 | the first slot not challenged, or -1 |
| ServerObject.Server.FindExistingConnectionIndex | NetworkPlugin/src/Server.cpp:53-62 | the first slot connected to the address, or -1 |
| ServerObject.Server.FindExistingChallengeIndex | NetworkPlugin/src/Server.cpp:76-84 | the first slot challenged for the address, or -1 |
| ServerObject.Server.Listen | NetworkPlugin/src/Server.cpp:103-208 | the object's new tables, datagrams and result are those of the protocol step |
| ServerObject.Server.HandleConnectionRequest | NetworkPlugin/src/Server.cpp:257-289 | a challenge is booked or repeated and sent, or the request is denied |
| ServerObject.Server.HandleChallengeResponse | NetworkPlugin/src/Server.cpp:291-326 | a challenged sender takes the first free slot and is told so under its key |
| ServerObject.Server.PropagateGameData | NetworkPlugin/src/Server.cpp:237-255 | each connected slot from 1 on advances its sequence and is sent the payload |
| ServerObject.Server.KickClient | NetworkPlugin/src/Server.cpp:347-384 | ten disconnect packets under the client's key, then removal |
| ServerObject.Server.RemoveClient | NetworkPlugin/src/Server.cpp:386-399 | clears a connection or a challenge, in the slot the indexing stores |
| ServerObject.Server.SwitchToLobby | NetworkPlugin/src/Server.cpp:215-218 | only the mode changes |
| ServerObject.Server.SwitchToGame | NetworkPlugin/src/Server.cpp:220-228 | only the mode changes |
| ClientObject.Client.constructor | NetworkPlugin/include/Network/Client.h:31-44 | disconnected, index -1, counters 0, zero key |
| ClientObject.Client.Connect | NetworkPlugin/src/Client.cpp:33-68 | from DISCONNECTED a new key pair and a broadcast request; otherwise nothing |
| ClientObject.Client.RespondChallenge | NetworkPlugin/src/Client.cpp:70-100 | one responder thread runs, whatever the phase and key |
| ClientObject.Client.SendDisconnect | NetworkPlugin/src/Client.cpp:102-124 | ten disconnect packets if a handshake is under way or done, then reset |
| ClientObject.Client.HandleChallenge | NetworkPlugin/src/Client.cpp:126-134 | the shared key is derived and a responder started |
| ClientObject.Client.HandleAccepted | NetworkPlugin/src/Client.cpp:136-141 | the index is taken over and the client is CONNECTED |
| ClientObject.Client.Disconnect | NetworkPlugin/src/Client.cpp:143-148 | key, server address and phase are reset, the counters are not |
| ClientObject.Client.Listen | NetworkPlugin/src/Client.cpp:150-229 | the object's new fields, datagrams, result and responders are those of the protocol step |
| ClientObject.Client.SendGameData | NetworkPlugin/src/Client.cpp:231-247 | when CONNECTED the next sequence number and the payload are sent |
| Tables.ListenKeeps | NetworkPlugin/src/Server.cpp:103-208 | every honest datagram keeps the tables consistent and, as intended, the connection count right |
| Tables.KickKeeps | NetworkPlugin/src/Server.cpp:347-384 | so does every kick |
| Tables.RemoveKeepsCount | NetworkPlugin/src/Server.cpp:386-399 | removal keeps the count right always as intended, and as written exactly if the client was not connected or slot 1 was |
| Tables.RequestSparesPending | NetworkPlugin/src/Server.cpp:257-273 | a stranger's request leaves another client's pending challenge in place exactly if the index is as intended |
| Tables.ListenMovesHow | NetworkPlugin/src/Server.cpp:103-208 | a datagram lets the connections only shrink, or is a response in the lobby that earns one slot under the key it is sealed with |
| Tables.GameDataComesFromOccupant | NetworkPlugin/src/Server.cpp:164-187 | game data is handed out exactly when the game runs and the packet verifies under the sending slot's key and fits, with that slot's index and the payload's size; -1 if only the room is missing, 0 otherwise |
| Tables.FanOutIs | NetworkPlugin/src/Server.cpp:237-255 | the packets sent are exactly those of the connected slots, each with that slot's address, key and next sequence number |
| Tables.OnePacketEach | NetworkPlugin/src/Server.cpp:237-255 | each connected address is sent exactly one packet, any other none |
| ServerOutcomes.RequestIsAnswered | NetworkPlugin/src/Server.cpp:257-289 | in the lobby, with a challenge slot free, a stranger's request books a challenge under the agreed key and is answered with the server's public key, whoever else is pending |
| ServerOutcomes.RequestIsDenied | NetworkPlugin/src/Server.cpp:262-272 | with none free, or while the game runs, nothing happens |
| ServerOutcomes.RequestIsRepeated | NetworkPlugin/src/Server.cpp:257-289 | a pending client's second request is answered with the same public key |
| ServerOutcomes.ResponseIsAdmitted | NetworkPlugin/src/Server.cpp:291-326 | a response under the agreed key takes the first free slot, drops only the sender's challenge and is answered under that key; with no slot free the client stays pending |
| ServerOutcomes.RemovalOfPending | NetworkPlugin/src/Server.cpp:394-398 | removing a client that is not connected drops its challenge and nothing else |
| ServerOutcomes.RemovalOfConnected | NetworkPlugin/src/Server.cpp:386-393 | removing a connected client clears its slot, as written slot 1, and touches no challenge |
| ServerOutcomes.PendingDisconnects | NetworkPlugin/src/Server.cpp:188-198 | a pending client's disconnect packet drops its challenge exactly if it is sealed under the agreed key |
| ServerOutcomes.KickIsExact | NetworkPlugin/src/Server.cpp:347-384 | ten packets under the client's key, connected or pending, and its slot or challenge goes; anyone else is not affected and gets none |
| ServerOutcomes.TheRestIsIgnored | NetworkPlugin/src/Server.cpp:111-200 | every other honest datagram changes, sends and returns nothing, but may collect a pending key |
| ClientOutcomes.GameDataIsHandedOut | NetworkPlugin/src/Client.cpp:192-211 | the exact outcome of game data: payload and size, -1 if the buffer is too small, 0 and nothing for anything but verified news |
| ClientOutcomes.EndsSession | NetworkPlugin/src/Client.cpp:143-148 | a believed disconnect packet, or game data before CONNECTED, resets all but the counters and the index |
| ClientOutcomes.TakesUpChallenge | NetworkPlugin/src/Client.cpp:126-134 | exactly a client that sent a request derives a key from a challenge, with one responder |
| ClientOutcomes.IsAccepted | NetworkPlugin/src/Client.cpp:136-141 | exactly a client that responded becomes CONNECTED by an acceptance under its key, with the index in it |
| ClientOutcomes.TheRestIsIgnored | NetworkPlugin/src/Client.cpp:150-229 | everything else moves m_serverAddress only, unless the call notices a timeout, which stale game data prevents |
| ClientOutcomes.AcceptedTooLate | NetworkPlugin/src/Client.cpp:222-227 | an acceptance may be followed by a timeout in the same call |
| Exchanges.ConnectIsAnswered | NetworkPlugin/src/Client.cpp:33-68 | a request from DISCONNECTED is answered so that both ends derive the same key, whoever else is pending; from any other phase nothing is sent |
| Exchanges.ResponderIsSeated | NetworkPlugin/src/Client.cpp:70-100 | a responder's packet seats the pending client in the first free slot, and the answer makes it CONNECTED with that slot |
| Exchanges.UploadIsHeard | NetworkPlugin/src/Client.cpp:231-247 | what a CONNECTED client sends under its next sequence number is what the server hands out, with the client's slot; other clients send nothing |
| Exchanges.DownloadIsHeard | NetworkPlugin/src/Server.cpp:237-255 | what is propagated is what the occupant of the slot hands out, if its m_ack is behind |
| Exchanges.PendingLeaveIsHeard | NetworkPlugin/src/Client.cpp:102-124 | each of the ten packets of a pending client that leaves drops its challenge only; before there is a key none is sent |
| Exchanges.PendingKickIsHeard | NetworkPlugin/src/Server.cpp:359-383 | each of the ten packets sent to a pending client that is kicked ends its session |
| Agreement.StepKeeps | NetworkPlugin/src/Server.cpp:103-208 | every step of server, clients, responders and network keeps the global invariant |
| Agreement.RunIsGood | NetworkPlugin/src/Server.cpp:103-326 | the global invariant holds in every reachable state |
| History.HandshakeAgreement | NetworkPlugin/src/Client.cpp:136-191 | a CONNECTED client was given the slot m_index, under its own address and key, by an earlier step of the server |
| History.AssignmentIsEarned | NetworkPlugin/src/Server.cpp:291-326 | a step that takes a slot gives it, from 1 on, to a client that had derived the slot's key and held it by then |
| History.AssignmentHappened | NetworkPlugin/src/Server.cpp:306-310 | an assignment in the history is a step of the run that gave the slot |
| History.TableInvariant | NetworkPlugin/src/Server.cpp:8-18 | in every reachable state the host keeps slot 0, addresses are distinct and not both connected and challenged, indices are 1 to 3, and as intended the count is right |
| History.HistoryCountsSteps | NetworkPlugin/src/Server.cpp:237-313 | the model's log agrees with the run: packets to a slot's occupant, slots given to a client and payloads sent to it are those of the run's own steps |
| History.SequenceCountsPackets | NetworkPlugin/src/Server.cpp:243-247 | a slot's sequence is, modulo 65536, the number of PropagateGameData steps since its occupant was let in |
| History.PropagateSendsOneEach | NetworkPlugin/src/Server.cpp:237-255 | in every reachable state one propagation reaches each connected client once |
| History.GameOnlyShrinks | NetworkPlugin/src/Server.cpp:144-163 | between mode switches the connected clients of a running game only become fewer |
| Delivery.InOrderDelivery | NetworkPlugin/src/Client.cpp:192-211 | payloads are handed out in strictly increasing order of the numbers they were sent under, and payload n is that of the n-th PropagateGameData that reached the client |
| Delivery.StaleAckDrops | NetworkPlugin/src/Client.cpp:143-148 | disconnecting keeps m_ack, and packet n of a later session is dropped exactly if n is at most m_ack and more than m_ack - 32768 |
| Disconnects.SlotIsKept | NetworkPlugin/src/Server.cpp:103-208 | as intended, a client keeps its slot through any steps of anyone until its own disconnect packet arrives or it is kicked, and is then connected nowhere until given a slot again |
| Disconnects.DisconnectIsTargeted | NetworkPlugin/src/Server.cpp:188-198 | as intended, in any run, a client's first disconnect packet frees exactly its slot and lowers the count by one; until it is given a slot again, a later one only drops its own pending challenge, exactly if that is under the packet's key |
| Disconnects.DisconnectAsWritten | NetworkPlugin/src/Server.cpp:386-393 | as written, a disconnect frees the sender's slot exactly if that is slot 1 |
| Disconnects.LeaveIsHeard | NetworkPlugin/src/Client.cpp:102-124 | each of the ten packets a leaving client sends frees exactly its slot on the server |
| Disconnects.KickIsHeard | NetworkPlugin/src/Server.cpp:372-383 | each of the ten packets sent to a kicked client ends its session |
| Handshake.Connects | NetworkPlugin/src/Client.cpp:33-141 | from any state of any run in which the client is idle and the server has a free slot and a free challenge slot, whoever else is pending, six steps leave the client CONNECTED with that slot and both ends with the same key |
| Handshake.HandshakeCompletes | NetworkPlugin/src/Server.cpp:257-326 | in particular from the initial state, with slot 1 |
| Failures.OvertakingDataDisconnects | NetworkPlugin/src/Client.cpp:192-219 | a verified data packet keeps a client in its session exactly if it is CONNECTED |
| Failures.HandshakeIsOvertaken | NetworkPlugin/src/Client.cpp:192-219 | a run in which game data overtakes the acceptance: the client is DISCONNECTED, the server holds slot 1 for it |
| Failures.SecondRequestClobbers | NetworkPlugin/src/Server.cpp:257-273 | a run in which two clients request: the first one's challenge is still there exactly if the index is as intended |
| Failures.SecondSessionLosesData | NetworkPlugin/src/Client.cpp:143-148 | a run whose second session drops the first payload, although both ends are connected under one key |
| Failures.AsWrittenMiscounts | NetworkPlugin/src/Server.cpp:386-393 | as written, a run in which two clients join and one leaves: the wrong slot is free and the count is wrong |

## Left out

- Packets.Write: sizes above a positive `int` are not modelled; the source converts them to a negative size.
- Crc32.ReverseBits: a shift of a 32-bit value by 32, which happens for a zero remainder and is undefined in C++, gives zero here.
- Buffers.Buffer.WriteBuffer: where the bounds check overflows and passes wrongly the source goes on outside the block, as do the other reads and writes; the model stops with `Fault` and promises nothing.
- Packets.Read: allocation of the payload block never fails; a declared length past the datagram ends as a failed read, or as a fault where the bounds check overflows.
- Sockets, the API wrapper, exported C functions, debug and connect callbacks: input and output around the logic.
- HMAC-SHA256, SHA-256 and Diffie-Hellman arithmetic, which live in libraries that are not part of this model.
- `WriteFloat` and `ReadFloat`: no packet uses them, and `ReadFloat` reads one byte where four were written.
- Address parsing and printing: an address is a pair of ip and port compared by equality.
- Clocks: a client's timeout may strike in any call that can notice it, and the server's timeouts are commented out in the source.
- A failed receive is no step: the server then does nothing, and a client can only time out, which is the `SendDisconnect` step.
- Datagrams larger than the 1024-byte receive buffer: they count as lost.
- The destructors: the server's is a sequence of kicks, which are steps here.
- Interleaving inside one operation: `RespondChallenge` is one atomic step, and the shared-key future already holds its value when it is set.
- `ConnectionInfo::ack`, timestamps and the unused constants of Packet.h, which no operation reads.
- Progress under loss: a lost challenge leaves the client waiting, since nothing is retransmitted; only safety and the undisturbed handshake are claimed.
