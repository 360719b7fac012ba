# Verified model of gomat

A Dafny model of the core of gomat, a Go library that commissions and controls Matter devices. It follows the
code of the repository, with the same branches, constants and error conditions, and proves what its parts keep on
their own and together.

- `bytes.dfy`, `sequences.dfy`: bytes, fixed-width integers in both byte orders, exclusive or; sequences built element
  by element. A byte is an integer below 256; masks, shifts and ors of disjoint bits are written as remainders,
  quotients and sums.
- `buffer.dfy`: the byte buffer of the Go library, with its short reads.
- `ccm_format.dfy`, `ccm_spec.dfy`, `ccm.dfy`: AES-CCM (RFC 3610) over an arbitrary 16-byte block function. The first
  holds the length bounds and the block format, the second CBC-MAC, counter mode, sealing and opening as functions of
  byte strings next to the definitions of the RFC, and the third the CCM object with its in-place loops over arrays
  and slices, proved against those functions.
- `tlv.dfy`, `tlv_codec.dfy`, `tlv_bytes.dfy`, `tlv_io.dfy`: Matter TLV. The decoder as a function of the input and the
  lookups in what it returns; the writer's bytes as functions of trees, and the round trip; every element byte by byte;
  the append-only writer and the recursive, loop-driven reader over a shared buffer.
- `messages.dfy`, `invoke.dfy`: message headers, protocol headers, acknowledgements, status reports, invoke requests
  with a spliced payload, and invoke responses.
- `channel_spec.dfy`, `securechannel.dfy`: the secure channel. What one call makes of data or of a datagram, both ends
  composed into an end-to-end theorem, and the channel object with automatic acknowledgements.
- `network.dfy`: runs of any length of two endpoints over a network that reorders, loses, duplicates and makes up
  datagrams: what is said and acknowledged, what is on its way, nonces, origin of what is accepted, and draining.
- `conversation.dfy`: conversations by any script of questions over a channel: their order, their counters, and which
  datagrams make them done or make them panic.
- `flow_spec.dfy`, `flows.dfy`: commissioning. The first is the script of its nine questions, each with its channel, and
  with what every answer leads to, and the properties of its runs; the second the code, which runs over any arriving
  datagrams, with every failure point, panics and the deferred close included, proved to hold that conversation.
- `flow_messages.dfy`: what a device reads in the questions, which answers are taken, and on which channels, in numbers.
- `rehearsal.dfy`: commissioning together with a device that does its part, with every datagram that it sends.
- `spake2p.dfy`, `pase.dfy`: SPAKE2+ over an arbitrary abelian group, the transcript, and that PASE with a device that
  runs the other side ends in channels that can read each other.
- `qr.dfy`: base-38 text, the bit reader, and QR payloads, on texts of any bytes.

A panic of the Go code is a result of its own (`None`, `Panicked` or `Panic`). Randomness, certificates, hash
functions, the block cipher, and everything that arrives from the network are arbitrary inputs. No claim is made
about computational security.

Some properties one might expect do not hold of the code. Each is replaced by the exact condition under which it does,
and comes with a case in which it does not:

- The CCM block format follows RFC 3610, and is prefix-free, exactly for associated data of at most 0xfeff bytes.
  From 0xff00 bytes on the code writes the marker `0xfe 0xff` (ccm/ccm.go:129-130), which is also the two-byte length
  0xfeff (`CcmFormat.RfcFormatIff`, `CcmFormat.PrefixFreeIff`, `CcmFormat.CollidingAdata`).
- A TLV tree survives writing and decoding exactly when its octet strings have at most 0xffff bytes, because the
  writer truncates longer lengths (`TlvCodec.RoundTripIff`, `TlvCodec.LongOctetsLost`).
- A protocol header that announces an acknowledged counter is not written completely by its own encoder
  (`Messages.ProtocolHeaderRoundTripIff`, `Messages.AnnouncedCounterMissed`), and a message header with a node id of
  another size than the flags can announce cannot be read back (`Messages.HeaderRoundTripIff`,
  `Messages.OddNodeLost`).
- An invoke response counts as success exactly when its common status is zero, or it has one and its cluster status is
  zero; so also with a failing common status, although the comment at messages.go:434-437 reads otherwise, and with
  something that is no integer in the place of the common status (`Invoke.ResponseSuccessIff`,
  `Invoke.FailureTakenForSuccess`, `Invoke.NoIntegerIsZero`).
- PASE counts as successful after any message that is no status report, and CASE after a message with the opcode of a
  status report even when it belongs to another protocol, because the status fields are then left at zero
  (`FlowSpec.PaseSuccessIff`, `FlowSpec.PaseSuccessWithoutReport`, `FlowSpec.SuccessIffMessage`,
  `FlowSpec.SuccessWithoutReport`).
- Commissioning is done after any answer to CommissioningComplete that has an item in the place of the result, also one
  that reports a failure, which is only logged (`FlowSpec.CompleteSuccessIff`, `FlowSpec.CompleteDespiteFailure`, and a
  whole run in `Rehearsal.DoneDespiteFailure`).
- After PASE every call of Send, the deferred close included, uses the counter of the one before plus one, also across
  the change of keys, exactly when the datagrams that arrive do not make the CASE exchange panic; otherwise the close,
  which is then in the clear, uses the counter of Sigma1 again (`FlowSpec.ConsecutiveIff`). They do so exactly when the
  first message after six acceptable answers cannot be decoded, or is an acceptable Sigma2 over which the Sigma context
  panics, or the first message after seven acceptable answers cannot be decoded (`FlowSpec.CasePanicIff`); such
  runs are in `Rehearsal.CounterUsedTwice`. What is sent under a key never shares a nonce (`FlowSpec.SealedNonces`).
- A QR text is decoded exactly when it is long enough and all its characters, read in chunks of five bytes and cut off
  to a byte, are digits; beyond ASCII that is more than the texts of digits (`QrSpec.DecodeQrIff`,
  `QrSpec.DecodedBeyondAscii`).

## Model

| member | source | states |
|---|---|---|
| Bytes.XorBits | ccm/ccm.go:85-90 | Every bit of an exclusive or of bytes is set if and only if exactly one of the two bits is |
| Bytes.LittleEndianAt | messages.go:57-90 | Byte i of a little-endian integer is n / 256^i mod 256 |
| Bytes.BigEndianAt | ccm/ccm.go:118-119 | Byte i from the end of a big-endian integer is n / 256^i mod 256 |
| CcmLength.MaxLenValue | ccm/ccm.go:61-70 | Despite the wrap-around of the shift for L = 8, the bound is the smaller of 256^L - 1 and the largest int minus the tag |
| CcmLength.MaxLenIff | ccm/ccm.go:115-117 | Exactly the lengths that fit an L-byte field, and an int together with the tag, pass the length check |
| CcmLength.MaxLenBounds | ccm/ccm.go:59-70 | The bound is monotone in L, and adding the tag size to it cannot overflow a 64-bit int |
| CcmLength.MaxNonceLength | ccm/ccm.go:75-83 | The result is the largest nonce size whose CCM with a 16-byte tag accepts the length, or 0 when there is none |
| CcmFormat.RfcFormatIff | ccm/ccm.go:104-148 | The formatted blocks are those of RFC 3610, section 2.2, if and only if the associated data has at most 0xfeff bytes |
| CcmFormat.LongAdata | ccm/ccm.go:126-138 | Beyond 0xfeff bytes the associated data stands behind 0xfe 0xff and its length in four bytes, or in eight from 2^32 on |
| CcmFormat.PadZeros | ccm/ccm.go:92-102 | Padding adds zero bytes up to the next block boundary, and no whole block |
| CcmFormat.ParseBlocks | ccm/ccm.go:104-148 | From the blocks of a message and anything after them, tag size, length size, nonce, associated data and plaintext can be read off again |
| CcmFormat.BlocksPrefixFree | ccm/ccm.go:104-148 | Messages with associated data of at most 0xfeff bytes whose blocks are a prefix of one another are equal |
| CcmFormat.PrefixFreeIff | ccm/ccm.go:122-142 | The format is prefix-free up to a bound on the associated data if and only if the bound is at most 0xfeff |
| CcmFormat.CollidingAdata | ccm/ccm.go:126-138 | Two different messages, with 0xfeff and 0xff00 bytes of associated data, that have the same blocks |
| CcmSpec.CbcMacConcat | ccm/ccm.go:92-102 | Feeding blocks in two portions gives the same MAC as feeding them at once |
| CcmSpec.FoldIsChain | ccm/ccm.go:85-102 | The running MAC after i blocks is X_i of RFC 3610, section 2.2 |
| CcmSpec.TagIsCbcMacOfBlocks | ccm/ccm.go:104-148 | The tag is the first M bytes of the RFC's chain over all formatted blocks |
| CcmSpec.TagIsRfcTag | ccm/ccm.go:104-148 | For associated data of at most 0xfeff bytes the tag is that of RFC 3610, format included |
| CcmSpec.CounterIsA | ccm/ccm.go:181-189 | The 128-bit increments from counter 1 never carry out of the length field: step i gives A_(i+1) |
| CcmSpec.CtrIsEncrypt | ccm/ccm.go:188-191 | The library's counter mode from A_1 is the encryption of RFC 3610, section 2.3, on every plaintext that fits |
| CcmSpec.CounterBlocksDistinct | ccm/ccm.go:181-189 | Counter blocks are equal only for equal nonces and equal counters |
| CcmSpec.SealingBlocksDistinct | ccm/ccm.go:174-194 | The blocks of tag mask and key stream of one sealing are pairwise distinct and differ from its B_0 |
| CcmSpec.SealedByte | ccm/ccm.go:174-194 | Byte i of a sealing is byte i of the plaintext xor byte i mod 16 of the encryption of the block that holds the length field minus one, the nonce, and i / 16 + 1 |
| CcmSpec.SealedTagByte | ccm/ccm.go:174-194 | The bytes after these are the RFC's CBC-MAC of the formatted blocks xor the encryption of the block number 0 |
| CcmSpec.OpenErrors | ccm/ccm.go:198-211 | Exactly when opening reports a short ciphertext, a long one, or a nonce of the wrong size, in this order |
| CcmSpec.OpenInvertsSeal | ccm/ccm.go:174-234 | Opening what was sealed returns the plaintext |
| CcmSpec.OpenAcceptsExactlySealed | ccm/ccm.go:198-234 | Opening returns p if and only if the nonce has the right size, p is within MaxLength and the ciphertext is the sealing of p |
| Ccm.NewCCM | ccm/ccm.go:42-55 | Which arguments are refused, in which order, and what the object holds |
| Ccm.SliceForAppend | ccm/ccm.go:151-165 | The extension keeps the contents, in place within the capacity and in a fresh array beyond it |
| Ccm.LengthUnderNonce | ccm/ccm.go:118-119 | The length bytes that the nonce overwrites are zero |
| Ccm.CCM.CbcRound | ccm/ccm.go:85-90 | The array holds the encryption of its old contents xor the block |
| Ccm.CCM.CbcData | ccm/ccm.go:92-102 | The loop over re-sliced data computes the CBC-MAC of the zero-padded data |
| Ccm.CCM.Tag | ccm/ccm.go:104-149 | Overlapping in-place writes and loops compute the tag; exactly which inputs are errors |
| Ccm.CCM.Seal | ccm/ccm.go:174-194 | Appends exactly the sealing to the destination, in place or fresh, also when the plaintext is the written window; nothing else changes |
| Ccm.CCM.Open | ccm/ccm.go:198-234 | Appends exactly the plaintext if the ciphertext opens, else returns the error and changes nothing |
| Buffers.ReadLocal | mattertlv/tlvdec.go:228-275 | A library read that does not use up the buffer depends on the bytes it takes only |
| Tlv.ElementLocal | mattertlv/tlvdec.go:194-300 | An element that ends before the input does is decoded alike in front of any other bytes |
| Tlv.ItemsLocal | mattertlv/tlvdec.go:293-294 | Inside a container the decoder stops exactly after the matching end byte and leaves the following bytes alone |
| Tlv.ItemsSize | mattertlv/tlvdec.go:194-300 | The items of the whole tree, hence its depth, are at most the bytes consumed |
| Tlv.DecodeItems | mattertlv/tlvdec.go:194-300 | On every input where it does not panic, decoding terminates and consumes a byte of a non-empty input |
| Tlv.FindTag | mattertlv/tlvdec.go:38-45 | The result is the first item with the tag, and none only if there is none |
| Tlv.GetItemRecConcat | mattertlv/tlvdec.go:148-160 | A lookup along a path is a lookup along its first part and then along its rest |
| TlvBytes.LookupIff | mattertlv/tlvdec.go:148-160 | A lookup succeeds if and only if the item is a container, and the lookup of the rest of the path succeeds in its first child with the tag |
| TlvBytes.UIntBytes | mattertlv/tlvenc.go:34-85 | The bytes of integers of one, two, four and eight bytes |
| TlvBytes.OtherUIntBytes | mattertlv/tlvenc.go:34-50 | For other types there are two bytes: the type with bit 5 set, and the tag |
| TlvBytes.BoolBytes | mattertlv/tlvenc.go:106-116 | The bytes of booleans |
| TlvBytes.OctetsBytes | mattertlv/tlvenc.go:87-104 | The bytes of octet strings, with a length of one byte or of two |
| TlvBytes.ContainerBytes | mattertlv/tlvenc.go:119-150 | The bytes around the elements of every kind of container |
| TlvBytes.ByteDecodes | mattertlv/tlvdec.go:202-227 | One-byte integers, signed or not, are read as that byte |
| TlvBytes.SignedDecodes | mattertlv/tlvdec.go:206-223 | Signed integers of two, four and eight bytes are skipped and give zero |
| TlvBytes.UnsignedDecodes | mattertlv/tlvdec.go:228-245 | Unsigned integers of two, four and eight bytes are read least significant byte first |
| TlvBytes.BoolDecodes | mattertlv/tlvdec.go:246-253 | Type 8 is false and type 9 is true |
| TlvBytes.TextDecodes | mattertlv/tlvdec.go:258-264 | A text of at most 0xff bytes is read as text and as octets, tagged or not, and what follows is untouched |
| TlvBytes.OctetsDecode | mattertlv/tlvdec.go:265-270 | An octet string with a one-byte length is read as these octets |
| TlvBytes.LongOctetsDecode | mattertlv/tlvdec.go:271-277 | An octet string with a two-byte length is read as these octets |
| TlvBytes.NullDecodes | mattertlv/tlvdec.go:278-280 | Type 0x14 is null |
| TlvBytes.ContainerDecodes | mattertlv/tlvdec.go:281-292 | Types 0x15, 0x16 and 0x17 hold the items up to the matching end byte |
| TlvBytes.OtherTypesPanic | mattertlv/tlvdec.go:254-296 | All other types make the decoder panic |
| TlvBytes.MissingBytePanics | mattertlv/tlvdec.go:180-192 | A missing tag, value byte or one-byte length makes it panic |
| TlvBytes.ShortInteger | mattertlv/tlvdec.go:228-245 | A longer integer that is cut off gives zero and uses up the input |
| TlvBytes.ShortString | mattertlv/tlvdec.go:258-270 | A string that is cut off is filled up with zeros |
| TlvBytes.FirstDecodes | mattertlv/tlvdec.go:303-310 | The top-level decoder returns the first of the items, and panics when one cannot be read or there is none |
| TlvCodec.UIntRoundTrip | mattertlv/tlvenc.go:34-50 | An integer is decoded to its value reduced to its width, and what follows is untouched |
| TlvCodec.OctetsRoundTrip | mattertlv/tlvenc.go:87-104 | An octet string of at most 0xffff bytes is decoded to itself, and what follows is untouched |
| TlvCodec.RoundTrip | mattertlv/tlvdec.go:194-300 | Every tree with such octet strings is decoded to itself, untagged containers as tag 0, in front of any bytes |
| TlvCodec.ListRoundTrip | mattertlv/tlvdec.go:194-300 | Decoding a written list and what follows it is decoding what follows, after the items of the list |
| TlvCodec.MessageRoundTrip | mattertlv/tlvdec.go:303-310 | The top-level decoder returns the tree that was written |
| TlvCodec.ElementShort | mattertlv/tlvdec.go:258-277 | The decoder never produces an octet string of more than 0xffff bytes |
| TlvCodec.RoundTripIff | mattertlv/tlvenc.go:87-104 | A tree survives writing and decoding if and only if its octet strings have at most 0xffff bytes |
| TlvCodec.LongOctetsLost | mattertlv/tlvenc.go:90-96 | An octet string of 0x10000 bytes does not survive |
| TlvIO.TLVBuffer.WriteUInt | mattertlv/tlvenc.go:34-50 | Appends the encoding of the integer, and for a type that is no integer type the control byte and the tag only |
| TlvIO.TLVBuffer.WriteOctetString | mattertlv/tlvenc.go:87-104 | Appends the encoding of the octet string, with the truncated two-byte length above 0xff bytes |
| TlvIO.DecodeInto | mattertlv/tlvdec.go:194-300 | The loop over the shared buffer appends exactly the decoded items and leaves exactly the rest, or panics exactly when decoding does |
| TlvIO.Decode | mattertlv/tlvdec.go:303-310 | Returns the first decoded element, and panics on an input without one |
| Messages.HeaderRoundTrip | messages.go:111-159 | A header with announceable node ids is read back with its flags, and what follows is untouched |
| Messages.HeaderRoundTripIff | messages.go:92-159 | A header can be read back if and only if its node ids have 0 or 8, and 0, 2 or 8 bytes |
| Messages.OddNodeLost | messages.go:92-159 | A header with a node id of seven bytes is not read back |
| Messages.HeaderBytes | messages.go:92-122 | The bytes of a header: flags, session, security flags, counter, and node ids, each in its place |
| Messages.HeaderFields | messages.go:124-159 | Which bytes of any long enough input are read as which field, for all flags |
| Messages.ShortHeaderFields | messages.go:124-142 | Of a header that is cut off before the node ids the incomplete fields are zero |
| Messages.MessageHeader.Encode | messages.go:111-122 | Appends the header's bytes |
| Messages.MessageHeader.Decode | messages.go:124-159 | Fields, rest of the buffer and error on every input, short ones included |
| Messages.ProtocolHeaderRoundTripIff | messages.go:57-90 | A protocol header can be read back if and only if it neither carries nor, in front of other bytes, announces an acknowledged counter |
| Messages.AnnouncedCounterMissed | messages.go:57-90 | A header that announces a counter is not read back in front of other bytes |
| Messages.AcknowledgingHeaderRoundTrip | messages.go:57-90 | With the counter appended, an announcing header is read back whole |
| Messages.ProtocolHeaderBytes | messages.go:85-90 | The six bytes of a protocol header |
| Messages.ProtocolHeaderFields | messages.go:57-66 | Which bytes of any long enough input are read as which field, with a counter if bit 1 of the first byte announces one |
| Messages.ShortProtocolHeaderFields | messages.go:57-66 | Of a protocol header that is cut off the incomplete fields are zero |
| Messages.ProtocolMessageHeader.Decode | messages.go:57-66 | Fields and rest of the buffer on every input |
| Messages.AckReads | messages.go:221-237 | An acknowledgement is read as a standalone one with the same exchange, the other role and the given counter, and nothing after it |
| Messages.AckBytes | messages.go:221-237 | The ten bytes of an acknowledgement |
| Messages.AckGen | messages.go:221-237 | Builds that acknowledgement |
| Messages.StatusRoundTrip | messages.go:272-286 | The three fields of a status report are read back |
| Messages.StatusBytes | messages.go:272-286 | The fourteen bytes of a status report |
| Messages.StatusFields | securechannel.go:135-143 | Which bytes of a payload are read as which field |
| Messages.SuccessIff | messages.go:251-262 | A payload counts as success if and only if every field that it is long enough for is zero |
| Invoke.BalancedIff | messages.go:289-305 | One decoding of a payload in front of two end bytes decides whether it can be spliced in front of the end of any container |
| Invoke.WrittenIsBalanced | messages.go:303 | Everything that the TLV writer writes can be spliced |
| Invoke.RequestDecodes | messages.go:289-321 | For every balanced payload the TLV part decodes to the path asked for and the payload's own items |
| Invoke.RequestLookups | messages.go:289-321 | Paths [2,0,0,0], [2,0,0,1], [2,0,0,2] give endpoint, cluster and command, and the children of [2,0,1] are the payload's items |
| Invoke.RequestFlags | messages.go:289-321 | Tags 0, 1 and 0xff hold false, whether the request is timed, and 10 |
| Invoke.InvokeHeaderBytes | messages.go:310-318 | The six header bytes of an invoke request |
| Invoke.EncodeIMInvokeRequest | messages.go:289-321 | The sequence of writer calls builds exactly those bytes |
| Invoke.ResponseOnWire | messages.go:438-451 | The response to a command, decoded from the wire, is taken for what its first two status fields are, whatever stands around them |
| Invoke.ResponseSuccessIff | messages.go:438-451 | A response on the wire, whatever its status fields, counts as success if and only if its common status is zero, or it has one and its cluster status is zero |
| Invoke.NoIntegerIsZero | messages.go:438-451 | A first status field that is no integer counts as zero, so as success |
| Invoke.FailureTakenForSuccess | messages.go:434-451 | A response on the wire with a failing common status that counts as success |
| ChannelSpec.NonceInjective | securechannel.go:48-54 | Nonces of one node are equal only for equal counters |
| ChannelSpec.SentBytes | securechannel.go:153-187 | The first sixteen bytes of every datagram, field by field from the channel; its length; and without a key the data as it is |
| ChannelSpec.SentSealed | securechannel.go:48-54 | Under a key the rest is the sealing with a 16-byte tag, under the nonce of a zero, the new counter least significant byte first, and the local node, with the first sixteen bytes as associated data |
| ChannelSpec.SendOutcome | securechannel.go:171-183 | Sending fails exactly for keys that are not of 16, 24 or 32 bytes or nodes not of 2 to 8, and panics exactly when the data is too long for the nonce or an int |
| ChannelSpec.SealedReceived | securechannel.go:92-107 | Of a datagram the first 10240 bytes are opened with a 16-byte tag, under the nonce of a zero, the counter in the header, and the remote node, with the header as associated data |
| ChannelSpec.ClearReceived | securechannel.go:115-122 | Without a key what follows the header is taken as it is |
| ChannelSpec.InterpretedBytes | securechannel.go:126-130 | Which messages are standalone acknowledgements, and which bytes of any other are its header and its payload |
| ChannelSpec.FinishedAs | securechannel.go:135-147 | What a message is returned as: a status report, an empty payload, or TLV |
| ChannelSpec.EndToEnd | securechannel.go:80-187 | Between channels in the clear, or with the same key and matching node ids, the receiver rebuilds the associated data and the nonce from the wire and interprets exactly the data that was sent |
| ChannelSpec.MessageComesThrough | securechannel.go:80-187 | Between such channels the same protocol header and payload come out, unless they are a standalone acknowledgement |
| ChannelSpec.SendSucceeds | securechannel.go:153-187 | In the clear, or with a valid key and an 8-byte node id, every message of at most 0xffff bytes is sent, and the size of its datagram |
| ChannelSpec.AckComesThrough | securechannel.go:126-133 | The acknowledgement of any message is sent and read at the other end as that acknowledgement |
| ChannelSpec.AckNeverPanics | securechannel.go:132-133 | Sealing an acknowledgement never panics, whatever the channel holds |
| ChannelSpec.AcceptedIffSealed | securechannel.go:92-124 | Under a key a datagram is taken in if and only if its body is the sealing, with the header as associated data, of data read so |
| SecureChannels.ReceiveAcknowledges | securechannel.go:126-133 | What a call returns is no standalone acknowledgement and is acknowledged once, with its exchange and counter; everything before it was one |
| SecureChannels.ReceiveReturnsSent | securechannel.go:80-187 | For every protocol header and payload that fits the receive buffer, in the clear as well as under a key, what Receive returns and acknowledges for what Send was given |
| SecureChannels.ReceiveReturnsTree | securechannel.go:144-147 | A tree written into the payload arrives as that tree |
| SecureChannels.ReceiveReturnsStatus | securechannel.go:135-143 | A status report arrives with its three fields |
| SecureChannels.SecureChannel.Send | securechannel.go:153-187 | Counter plus one mod 2^32 even on failure; the datagram, the error and the panic on every channel |
| SecureChannels.SecureChannel.Receive | securechannel.go:80-148 | The recursion over arriving datagrams takes in, acknowledges and returns exactly what the function over them says, and puts exactly that acknowledgement on the wire |
| SecureChannels.SecureChannel.Close | securechannel.go:190-201 | One close-session report goes out on a channel with a socket, nothing on one without |
| Network.RunKeepsWorld | securechannel.go:126-155 | Over every run, whatever the network does: consecutive counters, and no standalone acknowledgement is accepted |
| Network.RunSaid | securechannel.go:126-155 | Over every run the calls of Send are exactly, in order, one for every message submitted and one acknowledgement for every message accepted |
| Network.RunAcknowledges | securechannel.go:126-155 | From the start of a run, call k of Send is for utterance k under the start counter plus k + 1, and the messages acknowledged are the messages accepted, none of them an acknowledgement |
| Network.RunConserves | securechannel.go:80-187 | What is in flight after a run, with what was delivered or lost, is as a multiset what was there before and what was sent, copied or made up |
| Network.DeliverAcknowledgesOnce | securechannel.go:126-133 | In every world that a run leads to, a delivery answers with exactly one datagram when it accepts, read at the other end as that acknowledgement, and with none otherwise |
| Network.AcceptedWasSent | securechannel.go:80-187 | In every run, an accepted message from the peer is the header and payload of one of the peer's calls of Send, under that call's counter |
| Network.NoncesDistinct | securechannel.go:155-171 | In every run with at most 2^32 calls of Send no nonce is used twice |
| Network.NetworkStepDrains | securechannel.go:126-133 | Every delivery or loss lowers the measure, twice the messages to be acknowledged plus the others |
| Network.NetworkDrains | securechannel.go:126-133 | Without new application messages a run is no longer than the measure, and what is left can be delivered |
| ReceiveSteps.ReceiveIsDeliveries | securechannel.go:80-148 | A call of Receive has the effect of single deliveries of the datagrams that it takes in |
| Conversations.AskQuestion | securechannel.go:80-187 | One call of Send and one of Receive have the outcome, the counter, the rest of the datagrams and the events that the function says, and put on the wire exactly the datagrams that Send makes of these events |
| Conversations.RunInOrder | flows.go:165-273 | In a conversation by any script every question is the script's for the answers before it, under the key of its channel, with at most one acknowledgement after it, and is put only if all of them let it go on; how it ends is what the last answer leads to |
| Conversations.RunRestarts | flows.go:83-90 | From the question where the counter starts over, all calls of Send have consecutive counters, and the counter in front of the marked question is the one that is kept |
| Conversations.DoneIffSucceeds | flows.go:165-273 | A conversation is done if and only if, datagram by datagram, what arrives is taken in, can be decoded, and lets it go on, and all questions can be sealed |
| Conversations.ArriveReaches | flows.go:165-273 | A conversation gets to question k if and only if what arrives holds acceptable answers to the k questions before it, after any number of acknowledgements each |
| Conversations.ArriveDone | flows.go:165-273 | It is done if and only if acceptable answers to all questions arrive, and its answers and the datagrams left over are those |
| Conversations.PanicsAtQuestion | flows.go:165-273 | It panics at question k if and only if the answers before it arrive and the answer to it cannot be decoded, or what comes of it panics, or the question cannot be sealed |
| FlowSpec.KindOfInvoke | messages.go:289-321 | The kind of an invoke request, read off its bytes, is its cluster and command, whatever the payload |
| FlowSpec.ConversationIsRun | flows.go:165-273 | For any arriving datagrams the run keeps what the next rows are derived from |
| FlowSpec.PartOfRun | flows.go:165-273 | Part k of a run begins with question k of the nine, all else sent in it is acknowledgements, the channel and its key are those of its stage, and the answers before allow it |
| FlowSpec.CloseKind | securechannel.go:190-201 | The closing message is none of the questions and no acknowledgement |
| FlowSpec.CertificateMessages | flows.go:181-232 | Certificate request, AddTrustedRoot and AddNOC are sent only under the key that the first and the second answer of PASE lead to |
| FlowSpec.PaseMessages | flows.go:26-75 | The PASE messages are sent in the clear and before any sealed message |
| FlowSpec.SigmaMessages | flows.go:198-250 | Both Sigma messages are sent in the clear, after an answer to AddTrustedRoot whose result is 0 and an answer to AddNOC whose result is 0 |
| FlowSpec.CompletionMessage | flows.go:143-257 | CommissioningComplete is sent only under the key that the answer to Sigma1 leads to, after an answer to Sigma3 with the opcode of a status report and no failure code |
| FlowSpec.CountersAfterPase | flows.go:83-90 | From the certificate request to the end, over both keys and the clear messages between them, the calls of Send have the counters 1, 2, 3, and so on |
| FlowSpec.CountersOfPase | flows.go:18-75 | In PASE the calls of Send have consecutive counters from the random start on |
| FlowSpec.CountersRise | flows.go:246-250 | No two calls of Send after PASE have the same counter |
| FlowSpec.ClosingCounter | flows.go:165-175 | In every run the deferred close continues that numbering, unless the run panicked at one of the two questions of CASE: then it uses the counter of Sigma1 |
| FlowSpec.SealedClose | flows.go:165-175 | A closing message under a key continues the numbering in every run |
| FlowSpec.SealedNonces | securechannel.go:48-54 | No two messages that a run sends under keys after PASE, the closing one included, have the same nonce |
| FlowSpec.CasePanicIff | flows.go:98-158 | A run panics in CASE if and only if six acceptable answers arrive and then one to Sigma1 that cannot be decoded or over which the Sigma context panics, or seven and then one to Sigma3 that cannot be decoded |
| FlowSpec.ConsecutiveIff | flows.go:165-250 | For any arriving datagrams, all calls of Send after PASE with the closing one have consecutive counters if and only if the datagrams are not such, and else the closing message has the counter of Sigma1 |
| FlowSpec.DoneIff | flows.go:165-273 | Commissioning is done if and only if every arriving datagram in turn is an acknowledgement or the expected answer to the question at hand |
| FlowSpec.SuccessIffMessage | flows.go:143-150 | Exactly which answers to Sigma3 end CASE well |
| FlowSpec.SuccessWithoutReport | flows.go:143-150 | A message that is no status report and ends CASE well |
| FlowSpec.PaseSuccessIff | flows.go:75-81 | Exactly which answers to Pake3 end PASE well |
| FlowSpec.PaseSuccessWithoutReport | flows.go:75-81 | Messages that are no status reports and end PASE well |
| FlowSpec.CompleteSuccessIff | flows.go:258-272 | Exactly which answers to CommissioningComplete end the run well |
| FlowSpec.CompleteDespiteFailure | flows.go:263-272 | An answer to CommissioningComplete with any number for result, failures included, ends the run well |
| FlowMessages.ChannelStages | flows.go:18-95 | The whole channel of every question: keys, node ids and session, from the answers that they come from |
| FlowMessages.CaseMirrors | flows.go:152-156 | A device that holds the keys of the Sigma context the other way round, and the same node ids, can read the channel of CASE, and the channel the device |
| FlowMessages.SessionOnWire | securechannel.go:153-162 | The session in the header of every datagram: that of the parameter response with the commands, that of the Sigma context with the completion, else 0 |
| FlowMessages.QuestionHeader | messages.go:161-219 | Opcode, exchange id and protocol of every question |
| FlowMessages.ParameterRequest | messages.go:161-181 | What a reader looks up in the parameter request: random number, session 1, passcode 0, no parameters |
| FlowMessages.ShareMessage | flows.go:36-52 | The share is sent at tag 1, and is made for the salt and the iterations at [4, 2] and [4, 1] of the response |
| FlowMessages.ConfirmationMessage | flows.go:62-75 | The confirmation is sent at tag 1, and comes from these, the share at tag 1 of Pake2, and both payloads of the parameter exchange |
| FlowMessages.CsrMessage | flows.go:181-185 | Cluster, command and random number of the certificate request |
| FlowMessages.RootMessage | flows.go:204-207 | Cluster, command and certificate of AddTrustedRoot |
| FlowMessages.NocMessage | flows.go:224-232 | Cluster and command of AddNOC, with certificate, key of the fabric, controller and vendor 101 at tags 0, 2, 3 and 4 |
| FlowMessages.NocForKey | flows.go:192-219 | The operational certificate is the one for the key in the request at [1] inside the octets at [1, 0, 0, 1, 0] |
| FlowMessages.SigmaPayloads | flows.go:105-136 | Both Sigma messages are what the Sigma context yields |
| FlowMessages.CompletionRequest | flows.go:255-257 | Cluster and command of CommissioningComplete, and no fields |
| FlowMessages.TakenIff | flows.go:26-273 | Exactly which nine answers are taken, in terms of opcodes, paths and status fields |
| FlowMessages.PanicIff | flows.go:26-250 | Exactly which answers make the code panic |
| FlowMessages.ClosesIff | flows.go:165-175 | There is a closing message unless one of the two exchanges ended in an error, and which it is |
| FlowMessages.ClosingKey | flows.go:165-175 | It is under the key of the last question, and in the clear after a panic in one of the exchanges |
| Rehearsal.CommissioningWorks | flows.go:165-273 | With every device whose keys, certificate request and Sigma2 the environment takes, and whose messages fit the receive buffer, commissioning is done on the datagrams that the device sends on its own channels, whatever result it reports |
| Rehearsal.ExampleServes | flows.go:165-273 | There is such a device for every block cipher and all node ids, with a commissioner that takes nothing else and keys that all differ |
| Rehearsal.DoneDespiteFailure | flows.go:165-273 | So there are nine datagrams on which commissioning is done although the last reports failure 1 |
| Rehearsal.UnreadableMakesPanic | flows.go:107-112 | After any datagrams with six acceptable answers, a message in the clear whose payload is a lone end byte makes CASE panic |
| Rehearsal.CounterUsedTwice | flows.go:246-250 | With every such device, after six of its answers and an unreadable message the closing message has the counter of Sigma1 |
| Flows.Spake2pExchange | flows.go:18-95 | Holds the first three questions of the conversation, and puts on the wire what Send makes of them and of the acknowledgements; on success the channel has the keys and the session that the two answers and both payloads of the parameter exchange lead to, and a counter of zero; on an error no socket, on a panic the caller's variable as it was |
| Flows.PaseCommands | flows.go:181-244 | Holds the three commands of the conversation on the channel it is given, puts on the wire what Send makes of them and of the acknowledgements, and changes nothing of the channel but the counter |
| Flows.SigmaExchange | flows.go:98-158 | Holds the two questions of CASE on a copy, and puts on the wire what Send makes of them and of the acknowledgements; on success the copy has keys, session and both node ids in their places and carries the counter on; on an error no socket, on a panic the caller's channel as it was |
| Flows.Commission | flows.go:165-273 | For any arriving datagrams the result, the datagrams left over, and all calls of Send and received messages are those of the conversation, followed by the closing message of the deferred close on the channel that the variable then holds; what goes out on the socket is exactly what Send makes of these calls, in this order |
| PaseAgreement.PaseMirrors | flows.go:44-92 | When the device answers with its SPAKE2+ share for the same secrets, the channel that it cuts from its own hash of the transcript and the commissioner's can read each other, and the confirmation sent is the one it expects |
| PaseAgreement.CommissionerSide | flows.go:46-69 | The context object, used as the flow uses it, yields the commissioner's share and keys |
| Groups.MulMul | spake2p.go:115-149 | Multiplying by two scalars in turn is multiplying by their product, in every abelian group |
| Groups.MulCounts | spake2p.go:115-149 | Multiplying by 0 gives the neutral element, by 1 the element, and by k + 1 one more than by k |
| Spake2p.Agreement | spake2p.go:115-149 | Over any abelian group both sides compute the same Z and the same V |
| Spake2p.SharesBlinded | spake2p.go:115-126 | The commissioner's share hides x times the base point with w0 times M, the device's y times the base point with w0 times N |
| Spake2p.UnblindsReceived | spake2p.go:128-149 | Each side takes w0 times the other's seed from whatever it received |
| Spake2p.CommonPoints | spake2p.go:128-138 | Z is x y times and V is w1 y times the base point |
| Spake2p.UnblindingIff | spake2p.go:140-146 | Unblinding with another scalar gives the peer's plain share if and only if both scalars give the same multiple of the seed |
| Spake2p.SameKeys | spake2p.go:151-172 | With the same seed both sides derive the same keys and confirmations |
| Spake2p.CreateTTInjective | spake2p.go:51-71 | Transcripts are equal if and only if their bytes are, for fields of any lengths |
| Spake2p.TranscriptIff | spake2p.go:51-71 | The transcript is exactly the list of context, identities, M, N, X, Y, Z, V and w0 in this order, each behind its length in eight bytes |
| Spake2p.TranscriptHolds | spake2p.go:151-156 | Which value stands where in it: the hashed seed, two empty identities, both seeds, both shares, both common points, and w0 |
| Spake2p.KeyParts | spake2p.go:158-172 | Which part of which hash every key and confirmation is |
| Spake2p.WriteTT | spake2p.go:57-71 | The ten appends build the bytes of the transcript |
| Spake2p.SpakeCtx.CalcX | spake2p.go:115-120 | Sets the commissioner's share |
| Spake2p.SpakeCtx.CalcY | spake2p.go:121-126 | Sets the device's share |
| Spake2p.SpakeCtx.CalcZV | spake2p.go:128-138 | Sets Z and V from the received share |
| Spake2p.SpakeCtx.CalcZVb | spake2p.go:140-149 | Sets Z, L and V from the received share |
| Spake2p.SpakeCtx.CalcHash | spake2p.go:151-172 | Derives keys and confirmations from the transcript; the encryption key is the first part of the session keys, the decryption key the second |
| Spake2p.Exchange | spake2p.go:115-172 | Two context objects with the same secrets and seed end with equal Z, V and keys |
| QrSpec.Base38RoundTrip | onboarding_payload/qr.go:79-103 | Decoding the printed form of any bytes returns them, followed by zeros up to a multiple of three |
| QrSpec.BitOfBytes | onboarding_payload/qr.go:68-72 | Random access to a bit of a byte is that bit of the bytes as a little-endian number |
| QrSpec.SliceJoin | onboarding_payload/qr.go:56-66 | Consecutive numbers make up the number that spans both |
| QrSpec.DecodeQrIff | onboarding_payload/qr.go:79-139 | Of the texts of any bytes exactly those are decoded that have the prefix, sixteen or more bytes after it, and in every chunk of five bytes only characters that are cut off to digits |
| QrSpec.DecodeAsciiIff | onboarding_payload/qr.go:122-139 | Of the texts in ASCII exactly those with the prefix and sixteen or more digits after it, and nothing else, are decoded |
| QrSpec.DecodedBeyondAscii | onboarding_payload/qr.go:91-94 | A text outside ASCII that is decoded |
| QrSpec.RuneReads | onboarding_payload/qr.go:91-94 | The loop over a text reads every character that UTF-8 writes as that character |
| QrSpec.RuneWritten | onboarding_payload/qr.go:91-94 | What it reads otherwise is the error character, one byte at a time |
| QrSpec.DigitPlace | onboarding_payload/qr.go:8-17 | The digits are the characters of the alphabet in their places |
| QrSpec.QrRoundTrip | onboarding_payload/qr.go:122-139 | Every payload in range survives packing, printing and decoding |
| QrSpec.DocumentedText | README.md:55 | The text in the documentation decodes to version 0, vendor 65521, product 32769, discriminator 3840 and passcode 123456 |
| Qr.A2n | onboarding_payload/qr.go:10-17 | The search finds the value of every digit and panics on every other byte |
| Qr.BitBuffer.Get | onboarding_payload/qr.go:45-54 | Returns the bit of the number at the cursor and moves it by one, and panics exactly at the end |
| Qr.BitBuffer.GetNumber | onboarding_payload/qr.go:56-66 | Returns the slice of the number at the cursor, the low 64 bits of a longer one, and panics exactly beyond the end |
| Qr.BitBuffer.GetBit | onboarding_payload/qr.go:68-72 | Returns the bit of the number at the position, and panics exactly outside the bytes |
| Qr.ChunkNumber | onboarding_payload/qr.go:91-96 | The loop over the characters of a chunk, UTF-8 or not, computes the chunk's value, and its uint32 arithmetic never wraps around |
| Qr.B38Decode | onboarding_payload/qr.go:79-103 | The loops over chunks, characters and bytes give exactly the decoded bytes, and panic exactly when a character is cut off to no digit |
| Qr.DecodeQrText | onboarding_payload/qr.go:122-139 | Prefix, base 38 and seven reads in turn give exactly the fields |

## Left out

- UDP sockets, deadlines and mDNS: a channel sees an arbitrary sequence of datagrams, and a datagram that could not
  be written counts as lost, because every caller in the modelled flows ignores the error of Send.
- AES, SHA-256, HMAC, HKDF, PBKDF2, P-256: arbitrary functions, and an arbitrary abelian group. The elliptic curve
  library's behaviour on the point at infinity and on points off the curve is not modelled.
- `sigma.go`: a function that yields Sigma3, keys and a session, an error, or a panic; its use of CCM and TLV is not
  modelled.
- Certificates, the certificate manager and fabrics: values and functions of the environment of a run, which may fail or
  panic where the code calls them.
- Decoder types 1 to 3 skip their bytes and give zero, as the library does with an integer passed by value; the writer
  never emits them, so they are outside the round trip.
- Aliasing of nonce or associated data with the destination of Seal and Open: they are values. The plaintext of Seal
  and the destination are slices of arrays.
- The stream object of the Go library's counter mode: a function of block function, start block and position.
- Stack depth and memory: decoding deeply nested TLV and receiving many acknowledgements are not limited.
- `manual.go`, the printers, the demo, the examples, the symbol tables, `discover.go` and the read, subscribe, timed
  and status messages of the interaction model: they would only add easy members.
- Spake2p.CreateTTInjective: field lengths are below 2^64, as the lengths of Go slices are.
- Ccm.CCM.Seal: destination and plaintext may be the same window or not overlap, which is what its comment demands.
