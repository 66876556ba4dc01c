# OpenGFW: a verified model of its analyzers, its rule matchers and its engine

This project models the core of OpenGFW in Dafny and proves what that core is meant to do. It has
five parts.

**Stream parsers.** An analyzer appends whatever TCP delivers to a buffer and runs a resumable list
of steps over it; a step pauses, goes on, starts over or cancels. `Lsm` proves once, for any set of
steps that never take back an answer and leave everything alone when they pause, that the outcome
depends on the bytes of a direction and not on how they were cut. `TlsStreams`, `Http`, `Dns` and
`Socks` discharge the hypothesis for the steps of the program and add what they extract: round trips
from a grammar to the published fields, for every cut and whatever follows (`SocksRoundTrip` and
`SocksReplies` for the two directions of SOCKS), and what they accept at all (`SocksSoundness`). The stream objects (`TlsStream`, `HttpStream`,
`DnsTcpStream`, `SocksStream`) are classes whose methods update the same fields as the program, each
proved equal to its step; `Drive` is the engine's loop over a whole stream of either direction.

**QUIC Initial packets.** Long headers, header protection, packet numbers, CRYPTO frames, and the
whole way from a protected datagram to the fields of the ClientHello in it. Ciphers and key
derivation are arbitrary functions. Run-time panics are results of their own; `maxLen` stands for the
largest slice that can be made.

**GeoIP matching.** CIDR blocks on bytes, sorting and binary search against a plain scan, a finite
check that decides when the two agree, and the memo tables in front of them.

**The engine.** The life of analyzers on a stream, the verdicts of TCP and UDP streams, the bounded
table of UDP streams, and the dispatcher, workers and ruleset reloads as a system of concurrent
steps. Analyzers, rulesets and modifiers are arbitrary functions of everything they have been shown;
an analyzer may also write into the payload it is fed, which the next one then sees. `Publications` and
`EngineParsers` join this with the stream parsers, from the pieces of a TCP stream to the properties a
rule is shown; `UdpWorkers` and `TcpWorkers` join it with the dispatcher.

**Two detectors.** The WireGuard index ring and the Trojan run counter, against declarative
descriptions over the whole history of a stream.

A byte string is a sequence of integers from 0 to 255. `dafny verify dfyconfig.toml` checks
everything.

## Where the code differs from what one would expect

- The resumable machine does not stay stopped after a cancel: fed again it goes on as one that was
  never cancelled (`Lsm.RunCancelled`, `Lsm.FeedCancelled`), and can still publish
  (`TlsStreams.CancelIsNotAbsorbing`). Only the engine keeps it from being fed.
- The TLS hello parser ignores missing bytes in its first three fields. Behind the TLS stream machine
  that cannot happen; the QUIC analyzer only looks at the announced length, so nine bytes can pass for
  a ClientHello (`TlsHello.ShortHelloAccepted`), and the random is missing exactly when fewer than 34
  bytes came (`TlsHello.RandomPresent`).
- In SOCKS5 the end of a domain name is computed in eight bits, so requests and replies with a domain
  of 251 to 255 bytes panic, and no other well-formed ones do (`SocksRoundTrip.Request5Panics`,
  `SocksReplies.Response5Panics`).
- A SOCKS reply in front of every request is given up, because it is read with the version that the
  requests set (`SocksTalks.ReplyFirst`).
- The headers of an HTTP message are read if and only if there is one (`Http.EndsIffHeaders`). The blank
  line is searched for behind the first line, whose own line break has been consumed. A message without
  headers stays at that step; it is given up if and only if a blank line comes later
  (`Http.NoHeaderNoEnd`).
- Reading a QUIC packet can panic in three ways and in no other (`QuicInitial.ReadPanics`). The size check
  in front of header protection covers long headers only: for a short one, the sample may not fit the
  slice's capacity, or the announced packet number not the packet; ten bytes do it under any keys
  (`QuicInitial.TenBytesPanic`). The slice for the data of a CRYPTO frame is made with the announced
  length before that is compared with what is there (`QuicPayload.ExtractPanics`); a packet with a long
  header does it under any keys (`QuicInitial.LongHeaderPanics`). And the slice for several contiguous
  frames is made with the end of the last one (`QuicPayload.AssemblyPanics`).
- The analyzers of a UDP stream are served the same payload, last one first, and the QUIC analyzer
  decrypts in place. What an analyzer publishes does not depend on the others if those served before it
  write nothing (`Entries.ServeOwn`), and can if they do (`Entries.WriterSeen`).
- CRYPTO frames that begin at an offset k > 0: a single one is returned as it is, two or more yield k
  zero bytes in front if these fit a slice together with the data, and panic otherwise
  (`QuicPayload.AssembledFrom`).
- A packet number that is farther than half a window from the expected one is recovered all the same
  where no nearer number has its last digits, as for the first packets of a connection
  (`PacketNumber.DecodeExact`).
- A connection ID that is cut short by the end of the packet is not noticed where it is read; every
  such header is rejected later (`QuicHeader.HeaderSound`).
- A list of CIDR blocks in which one properly contains another can be searched wrongly
  (`GeoOrder.NestedNotSearchable`). `GeoOrder.SearchableIffOrdered` gives the exact condition, a check of
  the first and last address of each pair: blocks may be disjoint or share an end
  (`GeoOrder.OrderedMeans`).
- The WireGuard ring of n places remembers n - 1 indexes, and a handshake response puts its own index
  before it looks for the other one (`WireGuard.NthLastForgotten`, `WireGuard.ResponseSeesOneLess`).
- The Trojan detector's check for a TLS connection never runs: nothing sets the flag that guards it.
- A UDP stream that makes room for another is dropped without its active analyzers being closed; one
  whose ID is used by another flow is closed (`UdpEngine.ClosedOnlyWhenReplaced`).

## Model

| member | source | states |
|---|---|---|
| Lsm.ChunkIndependence | analyzer/utils/lsm.go:26-49 | For every stable, terminating step set and every cut of one direction, steps, position, flags and fields end as with one piece; the buffers differ only by chunks withheld after a stop; the last published map is the same. |
| Lsm.FeedTwice | analyzer/utils/lsm.go:26-45 | Feeding two chunks against feeding their concatenation, stopped or not. |
| Lsm.CutsAgree | analyzer/utils/lsm.go:26-45 | Two cuts of the same bytes cannot be told apart. |
| Lsm.DirectionsIndependent | analyzer/utils/lsm.go:26-45 | However the chunks of two directions interleave, each machine ends, and has published, as when its own bytes are fed at once. |
| Lsm.RunCancelled | analyzer/utils/lsm.go:26-45 | Any machine, once cancelled, runs on as one that was not; only the flag differs. |
| Lsm.FeedCancelled | analyzer/utils/lsm.go:26-45 | And publishes what that one would. |
| Lsm.LinearStateMachine.Answer | analyzer/utils/lsm.go:31-42 | What each answer of a step does to position and cancelled flag. |
| Lsm.LinearStateMachine.AppendSteps | analyzer/utils/lsm.go:47-49 | Steps are added behind the others. |
| Bytes.IndexAppend | analyzer/utils/bytebuffer.go:70-79 | The first occurrence of a separator stays the first when bytes are appended. |
| ByteBuffers.ByteBuffer.Get | analyzer/utils/bytebuffer.go:21-30 | All or nothing: the front bytes and, when consuming, exactly the rest left; otherwise nothing changes. |
| ByteBuffers.ByteBuffer.GetUntil | analyzer/utils/bytebuffer.go:70-79 | The bytes up to the first separator, with or without it, and what is left. |
| ByteBuffers.ByteBuffer.GetSubBuffer | analyzer/utils/bytebuffer.go:81-87 | A separate buffer over the front bytes. |
| TlsHello.ClientHelloRoundTrip | analyzer/internal/tls.go:27-96 | Every ClientHello of the grammar (section 4.1.2 of RFC 8446), with any ciphers, session, compression methods and extensions, is read back as exactly its fields; a client's version list is never taken for the server's single version. |
| TlsHello.ClientHelloAccepted | analyzer/internal/tls.go:27-96 | A message of at least 34 bytes is accepted if and only if it is in the grammar. |
| TlsHello.ServerHelloRoundTrip | analyzer/internal/tls.go:98-151 | The same round trip for ServerHello. |
| TlsHello.ServerHelloAccepted | analyzer/internal/tls.go:98-151 | The same exact acceptance for ServerHello. |
| TlsHello.ExtensionProperty | analyzer/internal/tls.go:153-224 | SNI, ALPN, versions and ECH are those of the last extension that carries them. |
| TlsHello.RandomPresent | analyzer/internal/tls.go:28-43 | An accepted message has its random if and only if it had 34 bytes; the parser does not check. |
| TlsHello.ShortHelloAccepted | analyzer/internal/tls.go:27-96 | A nine-byte message is accepted. |
| TlsParser.ParseTLSClientHelloMsgData | analyzer/internal/tls.go:27-96 | The parser that consumes its buffer and fills its map in loops computes the specified result. |
| TlsParser.ParseTLSServerHelloMsgData | analyzer/internal/tls.go:98-151 | The same for ServerHello. |
| TlsParser.ParseTLSExtension | analyzer/internal/tls.go:178-224 | One extension, with its loops over names and versions, against the specification. |
| TlsStreams.ProgGood | analyzer/tcp/tls.go:96-218 | The TLS steps meet the conditions of the chunk theorem. |
| TlsStreams.ClientHelloThroughMachine | analyzer/tcp/tls.go:96-198 | The bytes 0x16, any version and record length, 1, the length in three bytes, a ClientHello of the grammar, and anything behind it, cut in any way: published with exactly its fields, and the rest stays in the buffer. |
| TlsStreams.ServerHelloThroughMachine | analyzer/tcp/tls.go:140-218 | The same for the response side, with 2 for the message type. |
| TlsStreams.RecordDecides | analyzer/tcp/tls.go:96-218 | For every input of nine bytes or more, cut in any way: given up at once exactly when the first byte is not 0x16, the sixth not the message type of the side, or the announced length below 41 or 38; otherwise nothing until that many bytes are there, and then published or given up as they parse. |
| TlsStreams.CancelIsNotAbsorbing | analyzer/utils/lsm.go:27-41 | A cancelled machine that is fed a record parses it. |
| TlsStreams.TlsStream.Feed | analyzer/tcp/tls.go:57-90 | One call runs the machine of its direction and no other, publishes what the specification says, and is done on cancel or when both directions are. |
| Http.ProgGood | analyzer/tcp/http.go:92-185 | The HTTP steps meet the conditions of the chunk theorem. |
| Http.MessageThroughMachine | analyzer/tcp/http.go:92-185 | A start line and at least one header, cut in any way, yield the line's fields and the header map; the body stays in the buffer. |
| Http.RequestThroughMachine | analyzer/tcp/http.go:92-175 | A line of three fields whose last begins with "HTTP/", header lines of name, colon and value, and a blank line, in bytes: the three fields are published as method, path and version, and under each key the value of its last header. |
| Http.ResponseThroughMachine | analyzer/tcp/http.go:117-185 | The same for a status line: version and a number other than zero. |
| Http.StartLineDecides | analyzer/tcp/http.go:92-144 | For every first line, whatever follows: its fields are published exactly when it is such a line; otherwise the stream is given up with nothing published. |
| Http.BadHeaderCancels | analyzer/tcp/http.go:146-167 | One header line without a colon, and the stream is given up with the start line alone published. |
| TlsStreams.Drive | analyzer/tcp/tls.go:57-90 | Over a whole stream of chunks in both directions, fed until it is done, each direction publishes what its own bytes at once would; feeding stops early only when a machine cancels or both are through. |
| Http.NoHeaderNoEnd | analyzer/tcp/http.go:146-167 | A start line without headers, followed by anything and cut in any way, publishes the line's fields and nothing more; the machine stays at the header step and cancels if and only if a blank line comes later. |
| Http.EndsIffHeaders | analyzer/tcp/http.go:92-185 | Any well-formed message, followed by anything and cut in any way, is read to the end of its headers if and only if it has one. |
| Http.NeverCrashes | analyzer/tcp/http.go:92-185 | No step writes to a map that is not there. |
| Http.HttpStream.Feed | analyzer/tcp/http.go:57-90 | As for TLS. |
| Http.Drive | analyzer/tcp/http.go:57-90 | As for TLS. |
| Dns.FramingThroughMachine | analyzer/udp/dns.go:138-184 | For every cut, the byte strings given to the DNS parser are exactly the complete length-prefixed frames of the stream (section 4.2.2 of RFC 1035), in order, up to the first rejected one; frames and leftover make up the input. |
| Dns.FramingUnique | analyzer/udp/dns.go:138-184 | A stream has one way only to be split into frames and leftover. |
| Dns.ProgGood | analyzer/udp/dns.go:138-184 | The steps meet the conditions of the chunk theorem; the machine ends although it starts over, each round taking at least two bytes. |
| Dns.DnsTcpStream.Feed | analyzer/udp/dns.go:95-128 | As for TLS, with updates that replace everything. |
| Dns.Drive | analyzer/udp/dns.go:95-128 | As for TLS. |
| Socks.ReqGood | analyzer/tcp/socks.go:144-320 | The request steps, which append steps while they run, meet the conditions of the chunk theorem. |
| Socks.RespGood | analyzer/tcp/socks.go:172-415 | The response steps do too, with the version fixed. |
| SocksRoundTrip.Request5ThroughMachine | analyzer/tcp/socks.go:144-320 | Greeting, optional password sub-negotiation and request with a domain of at most 250 bytes (sections 3 to 5 of RFC 1928, section 2 of RFC 1929), cut in any way, yield exactly auth data, command, address and port; one step grows to four. |
| SocksRoundTrip.Request5Panics | analyzer/tcp/socks.go:302-308 | Such a request panics if and only if its domain is longer than 250 bytes. |
| SocksRoundTrip.Request4ThroughMachine | analyzer/tcp/socks.go:417-474 | SOCKS4 and SOCKS4A requests, cut in any way, yield their fields. |
| SocksReplies.Response5ThroughMachine | analyzer/tcp/socks.go:322-415 | Chosen method, optional status and reply with a domain of at most 250 bytes, cut in any way, yield exactly auth data, reply code, address and port. |
| SocksReplies.Response5Panics | analyzer/tcp/socks.go:396-405 | Such a reply panics if and only if its domain is longer than 250 bytes. |
| SocksReplies.Response4ThroughMachine | analyzer/tcp/socks.go:476-497 | SOCKS4 replies, cut in any way, yield their fields. |
| SocksReplies.WrongReplyCancels | analyzer/tcp/socks.go:172-193 | A reply is given up at its first byte if and only if that is not the byte for the version of the requests, or there is no version yet. |
| SocksTalks.RequestsFirst | analyzer/tcp/socks.go:97-134 | When the first byte of a conversation is a request's, then however the directions interleave, requests end as when all their bytes are fed at once, and replies as when a machine that knew the version from the start reads all of theirs. |
| SocksTalks.ReplyFirst | analyzer/tcp/socks.go:172-193 | When it is a reply's, the stream is given up there with nothing published. |
| SocksTalks.Drive | analyzer/tcp/socks.go:97-134 | The engine's loop over a whole conversation on the stream object against its specification. |
| SocksSoundness.RequestsExactly | analyzer/tcp/socks.go:144-474 | The requests are read to their end if and only if the client's bytes begin with a well-formed request of SOCKS5, with a domain of at most 250 bytes, or of SOCKS4 or 4A, however they are cut. |
| SocksSoundness.RequestsDecided | analyzer/tcp/socks.go:144-474 | They are given up at a first byte other than 4 and 5; after eight bytes of SOCKS4 if and only if the command is unknown; and within 1032 bytes of SOCKS5 they are read, given up, or panic. |
| SocksSoundness.RepliesExactly | analyzer/tcp/socks.go:172-497 | The same for replies of the version that the requests have set. |
| SocksSoundness.RepliesDecided | analyzer/tcp/socks.go:172-497 | Replies of SOCKS4 are given up after eight bytes if and only if the code is not one of 0x5A to 0x5D; those of SOCKS5 are decided within 266 bytes. |
| SocksSoundness.CutRequest5 | analyzer/tcp/socks.go:144-256 | A request of SOCKS5 that is cut behind its sub-negotiation has published the version and the auth data, and keeps the rest. |
| SocksSoundness.CutRequest4 | analyzer/tcp/socks.go:144-458 | One of SOCKS4 has published command, address and port after eight bytes. |
| SocksSoundness.CutReply5 | analyzer/tcp/socks.go:172-354 | A reply of SOCKS5 has published the method, and the status if there is one. |
| SocksStreams.SocksStream.Feed | analyzer/tcp/socks.go:97-134 | One call runs the machine of its direction; of the other one only the version it reads can change. |
| PacketNumber.DecodeNearest | analyzer/udp/internal/quic/packet_protector.go:161-174 | The decoded number has the truncated digits, lies in [0, 2^62) and is no farther from the expected one than any other such number (section A.3 of RFC 9000). |
| PacketNumber.DecodeExact | analyzer/udp/internal/quic/packet_protector.go:161-174 | Exactly which numbers are recovered from their last digits: those within half a window of the expected one, the upper end included, and those as close to an end of the number space as a window with no nearer candidate. |
| PacketNumber.DecodeFits | analyzer/udp/internal/quic/packet_protector.go:161-174 | No intermediate value leaves the signed 64-bit range. |
| QuicProtector.UnprotectProtect | analyzer/udp/internal/quic/packet_protector.go:46-73 | Unmasking undoes masking (section 5.4.1 of RFC 9001) for every mask function; nothing but the first byte and the packet number is touched. |
| QuicProtector.OpenProtected | analyzer/udp/internal/quic/packet_protector.go:46-79 | For any packet number, nonce and protected packet that satisfy section 5 of RFC 9001 (the number folded into the last eight bytes of the IV, the mask laid over the low bits of the first byte and over the number): it is opened to its plaintext when the number is one that is recovered. |
| QuicProtector.NonceMeans | analyzer/udp/internal/quic/packet_protector.go:93-100 | Below 2^64 one byte string and no other is the nonce of a packet number: the IV but for its last eight bytes, in which the number is folded, most significant byte first. |
| QuicProtector.ProtectMeans | analyzer/udp/internal/quic/packet_protector.go:46-73 | One byte string and no other is a packet protected as sections 5.4.1 and 5.4.2 of RFC 9001 say, stated bit by bit: what the specification of the code computes. |
| QuicProtector.OpenPanics | analyzer/udp/internal/quic/packet_protector.go:46-73 | Opening a packet panics if and only if its header is not a long one, and the sample does not fit the capacity or the announced packet number does not fit the packet. |
| QuicProtector.UnProtect | analyzer/udp/internal/quic/packet_protector.go:46-79 | The loops that unmask in place and the decryption against the specification, panics included; the header of a long enough packet is left unprotected, and nothing behind the packet is written. |
| QuicProtector.MakeNonce | analyzer/udp/internal/quic/packet_protector.go:93-100 | The nonce is the IV with the packet number folded into its last eight bytes, most significant byte first. |
| Varints.ReadPut | analyzer/udp/internal/quic/header.go:65-82 | Variable-length integers (section 16 of RFC 9000) of every width are read back. |
| Varints.ReadSound | analyzer/udp/internal/quic/header.go:65-82 | Whatever is read is an encoding of the value it yields. |
| Varints.ReadWire | analyzer/udp/internal/quic/header.go:65-82 | What is read, byte by byte: the two upper bits of the first byte give the width 1, 2, 4 or 8, and the rest is the number, most significant byte first. |
| QuicHeader.HeaderRoundTrip | analyzer/udp/internal/quic/header.go:24-89 | An encoded long header with any connection IDs, token and length, followed by anything, yields its fields and the offset of the packet number. |
| QuicHeader.HeaderSound | analyzer/udp/internal/quic/header.go:24-97 | Whatever is accepted is an encoding of the fields it yields; ignored read errors never let a cut header pass. |
| QuicHeader.ParseLongHeader | analyzer/udp/internal/quic/header.go:34-89 | The reader that advances field by field against the specification. |
| QuicPayload.CryptoRoundTrip | analyzer/udp/internal/quic/payload.go:67-122 | A byte string cut into pieces and sent as CRYPTO frames in any order between PADDING and PING is assembled to itself if it fits a slice and panics otherwise, whatever order the sort gives to equal offsets. |
| QuicPayload.ExtractSound | analyzer/udp/internal/quic/payload.go:67-97 | Whatever is extracted is what the payload encodes, and every frame of it fits a slice. |
| QuicPayload.ExtractEncoded | analyzer/udp/internal/quic/payload.go:67-97 | Every payload of PADDING, PING and CRYPTO frames yields its CRYPTO frames in order if all their data fit a slice, and panics otherwise. |
| QuicPayload.ExtractPanics | analyzer/udp/internal/quic/payload.go:81-93 | Extraction panics if and only if, behind some frames, a CRYPTO frame announces more bytes than fit a slice, whether they are there or not. |
| QuicPayload.AssemblyPanics | analyzer/udp/internal/quic/payload.go:110-121 | Assembly panics if and only if there are several frames that some sort leaves contiguous and whose bytes, with the zeros in front, do not fit a slice. |
| QuicPayload.GatheringPanics | analyzer/udp/internal/quic/payload.go:45-53 | Both together, for a decrypted payload. |
| QuicPayload.LongestFramePanics | analyzer/udp/internal/quic/payload.go:81-93 | The ten-byte payload that announces 2^62 - 1 bytes panics, since no slice is that long. |
| QuicPayload.AssembledFrom | analyzer/udp/internal/quic/payload.go:101-122 | Pieces from offset k, in frames of any order, are assembled to themselves if and only if there is one piece, or k is 0 and they fit a slice; otherwise k zeros come first, or, when these do not fit together with the pieces, a panic. |
| QuicPayload.ExtractCryptoFrames | analyzer/udp/internal/quic/payload.go:67-97 | The reader loop against the specification, panics included. |
| QuicPayload.AssembleCryptoFrames | analyzer/udp/internal/quic/payload.go:101-122 | Sorting in place, the contiguity check and the copy loop against the specification, panics included. |
| QuicInitial.PacketReads | analyzer/udp/internal/quic/payload.go:15-54 | Any packet that the sender of section 5 of RFC 9001 may send, numbered below its window, with any payload and followed by anything, is read as its payload is. |
| QuicInitial.InitialRoundTrip | analyzer/udp/internal/quic/payload.go:15-54 | When the payload's frames carry pieces of a byte string in any order, the packet is read as that string if it fits a slice, and panics otherwise. |
| QuicInitial.HelloThroughQuic | analyzer/udp/quic.go:38-77 | A ClientHello sent that way, short enough for a slice, yields exactly its fields. |
| QuicInitial.ReadPanics | analyzer/udp/internal/quic/payload.go:15-54 | Reading a datagram panics if and only if its header is accepted and: the header is not a long one and the sample does not fit the capacity or the packet number does not fit the announced length; or it decrypts to a payload in which a CRYPTO frame announces more than fits a slice, or several contiguous frames end beyond that. |
| QuicInitial.LongHeaderPanics | analyzer/udp/internal/quic/payload.go:81-93 | A well-formed Initial packet with a long header panics under all keys. |
| QuicInitial.TenBytesPanic | analyzer/udp/internal/quic/payload.go:15-54 | A ten-byte datagram in a slice of its own size panics under all keys. |
| QuicInitial.ReadCryptoPayload | analyzer/udp/internal/quic/payload.go:15-54 | The whole read of a packet against the specification, errors and panics included, for every capacity. |
| QuicInitial.QuicStream.Feed | analyzer/udp/quic.go:38-77 | What is published, how invalid packets count, when the stream is done and when it panics. |
| Cidr.AgreeIsMasked | ruleset/builtins/geo/matchers_v2geo.go:36 | Comparing under the byte mask of a prefix is agreeing on the prefix. |
| Cidr.AgreeIsBits | ruleset/builtins/geo/matchers_v2geo.go:36 | Agreeing on n bits means that each of the n first bits is the same. |
| Cidr.BlockConvex | ruleset/builtins/geo/matchers_v2geo.go:36-43 | What lies between two addresses of a block in byte order is in the block. |
| GeoIp.SearchSound | ruleset/builtins/geo/matchers_v2geo.go:24-46 | A hit of the search is a hit of the scan, for any list at all. |
| GeoIp.SearchableIffCompatible | ruleset/builtins/geo/matchers_v2geo.go:24-46 | The search agrees with a scan on all sorted lists over a family of blocks if and only if the blocks are pairwise compatible. |
| GeoOrder.FirstIsFirst | ruleset/builtins/geo/matchers_v2geo.go:36 | The first address of a block is looked up and contained, and nothing contained is in front of it; host bits and the IPv4-mapped addresses, which are looked up elsewhere, included. |
| GeoOrder.LastIsLast | ruleset/builtins/geo/matchers_v2geo.go:36 | The same for the last one. |
| GeoOrder.OrderedIffCompatible | ruleset/builtins/geo/matchers_v2geo.go:34-44 | Two stored blocks are compatible for all addresses if and only if they are for one end of each: a condition that is evaluated. |
| GeoOrder.SearchableIffOrdered | ruleset/builtins/geo/matchers_v2geo.go:24-46 | The search agrees with a scan on all sorted lists over a finite family of stored blocks, for every address, if and only if each pair passes that check. |
| GeoOrder.OrderedMeans | ruleset/builtins/geo/matchers_v2geo.go:34-44 | Proper blocks pass if and only if they are disjoint, or the later is inside and has the last address of the earlier, or the earlier is inside and has the first of the later. |
| GeoOrder.DisjointSearch | ruleset/builtins/geo/matchers_v2geo.go:24-94 | Blocks that are pairwise equal or disjoint as sets are searched correctly; host bits in the stored addresses do not matter. |
| GeoOrder.NestedNotSearchable | ruleset/builtins/geo/matchers_v2geo.go:24-46 | 0.0.0.0/0 and 64.0.0.0/2 together are not. |
| GeoOrder.To4Means | ruleset/builtins/geo/matchers_v2geo.go:25-32 | An address is looked up as four bytes exactly when it has four, or sixteen that begin with ten times 0 and twice 255. |
| GeoLists.MatchMeansListed | ruleset/builtins/geo/matchers_v2geo.go:48-94 | With any sort by address, a matcher built from a list whose blocks pass the check answers whether an address is in a listed block of its own form, inverted if asked for; IPv4 in sixteen bytes included. |
| GeoLists.DisjointIsGood | ruleset/builtins/geo/matchers_v2geo.go:62-94 | A list of pairwise equal or disjoint blocks passes. |
| GeoLists.NewGeoIPMatcher | ruleset/builtins/geo/matchers_v2geo.go:62-94 | The loop that sorts the blocks by length against the specification. |
| GeoLists.MatchIPLoop | ruleset/builtins/geo/matchers_v2geo.go:24-46 | The left/right loop against the specification. |
| GeoMemo.GeoMatcher.MatchGeoIp | ruleset/builtins/geo/geo_matcher.go:25-64 | Any call answers as an uncached evaluation of the lower-cased condition, whatever was asked before. |
| GeoMemo.GeoMatcher.MatchGeoSite | ruleset/builtins/geo/geo_matcher.go:66-93 | The same for sites. |
| GeoMemo.GeoMatcher.ParseGeoSiteName | ruleset/builtins/geo/geo_matcher.go:105-113 | The name in front of the first @ and every attribute behind, in order, all of them trimmed. |
| GeoMemo.SplitAtJoins | ruleset/builtins/geo/geo_matcher.go:106 | The parts joined by @ are the string, and none contains one. |
| GeoMemo.SplitAtParts | ruleset/builtins/geo/geo_matcher.go:105-113 | Any name and attributes without @, joined by it, are taken apart into just these. |
| GeoMemo.GeoIpAnswerMeans | ruleset/builtins/geo/geo_matcher.go:25-64 | End to end, for a list that passes the check: a condition holds if and only if the parsed address is in a block of its list, or in none when inverted. |
| GeoMemo.GeoIpAnswerOnly | ruleset/builtins/geo/geo_matcher.go:25-64 | No condition on a country without a list, or on one whose list has a network of another length, ever holds. |
| GeoMemo.GeoSiteAnswerMeans | ruleset/builtins/geo/geo_matcher.go:66-113 | A site condition holds if and only if there is a list of that name and the matcher built from it, with every attribute behind the name in order, matches the host. |
| WireGuard.Replay | analyzer/udp/wireguard.go:65-217 | In every stream, what is published for a packet is decided by the packets up to it: a receiver index matches if and only if one of the last n - 1 announced indexes is the same and came from the other side. |
| WireGuard.ParseMeans | analyzer/udp/wireguard.go:83-187 | A packet is taken for a message with these numbers if and only if it is that message byte by byte: type and three zeros, 148, 92, 64 or a multiple of 16 from 32 bytes on, numbers least significant byte first. |
| WireGuard.PublishedMeans | analyzer/udp/wireguard.go:65-187 | For every packet of every stream: nothing if it is no message, else its kind and numbers, and whether its receiver index is known. |
| WireGuard.MatchedMeans | analyzer/udp/wireguard.go:189-217 | Known means: announced by the other side, with fewer than five announcements since, the packet's own included. |
| WireGuard.WireGuardUdpStream.MatchReceiverIndex | analyzer/udp/wireguard.go:200-217 | The walk around the ring finds exactly that. |
| WireGuard.WireGuardUdpStream.PutSenderIndex | analyzer/udp/wireguard.go:189-198 | Writing into the ring and stepping back appends to the recency list. |
| WireGuard.WireGuardUdpStream.Feed | analyzer/udp/wireguard.go:65-81 | Counting invalid packets and publishing. |
| WireGuard.NthLastForgotten | analyzer/udp/wireguard.go:200-217 | The n-th last index is not found although the ring has n places. |
| WireGuard.ResponseSeesOneLess | analyzer/udp/wireguard.go:135-150 | A handshake response matches against the n - 2 indexes before its own. |
| Trojan.Detect | analyzer/tcp/trojan.go:48-92 | In every stream, a report is made if and only if the bytes from the Change Cipher Spec chunk on have five maximal runs of one direction, and it holds the sizes of the first four. |
| Trojan.DetectedMeans | analyzer/tcp/trojan.go:48-92 | Stated by the bytes alone: from the first client packet that begins with 20, 3, 3, 0, 1, 1 and up to the first gap, a bytes of the client, b of the server, c of the client, d of the server and one more of the client, if and only if a, b, c and d are reported. |
| Trojan.NothingDetected | analyzer/tcp/trojan.go:70-73 | Without such a packet nothing is reported. |
| Trojan.MaximalUnique | analyzer/tcp/trojan.go:75-88 | Runs that are not empty and alternate are determined by the directions of the bytes alone. |
| Trojan.Resplit | analyzer/tcp/trojan.go:75-88 | Cutting a later chunk in two changes nothing. |
| Trojan.DetectedPositive | analyzer/tcp/trojan.go:75-88 | All four reported sizes are positive. |
| Trojan.TrojanStream.Feed | analyzer/tcp/trojan.go:48-92 | One call against the runs of everything fed; the index stays within the array until the report, the last call. |
| Entries.ServeLife | engine/tcp.go:133-144 | A round over the entries, last first with removal, keeps each one exactly once and leaves its calls explained by the chunks: as they came if no analyzer writes into them, of the same size and kind otherwise. |
| Entries.NothingAfterDone | engine/tcp.go:190-207 | An analyzer that has said it is done is not fed again, and closed only if the same chunk used up its limit. |
| Entries.CloseIsLast | engine/tcp.go:175-207 | A close is the last call, so there is at most one. |
| Entries.FedIsPrefix | engine/tcp.go:190-207 | What an analyzer is fed is the beginning of the stream it is offered. |
| Entries.QuotaRespected | engine/tcp.go:190-207 | On TCP that is at most its limit, and the limited close comes if and only if it is exactly the limit. |
| Entries.OnlyLastCut | engine/tcp.go:190-207 | Only the chunk that uses up the limit is ever cut. |
| Entries.FedOnlyBelowLimit | engine/udp.go:260-271 | On either protocol an analyzer that is fed has had less than its limit before. |
| Publications.ServeOwns | engine/tcp.go:133-207 | A round keeps, under a name that one entry has, exactly what its analyzer has published over all its calls. |
| Publications.CloseOwns | engine/tcp.go:175-188 | So does closing. |
| Publications.ServeCounts | engine/tcp.go:133-144 | A round says that it has updated something if and only if an analyzer has merged, replaced or deleted, with its answer or in closing; otherwise all properties are as they were. |
| Entries.ServeOwn | engine/utils.go:25-50 | What a round leaves under a name of one's own depends on that analyzer alone, neither on the others nor on the order, provided that those served before it do not write into the payload. |
| Entries.WriterSeen | engine/udp.go:186-203 | Behind an analyzer that does write, the order decides what is published. |
| EntrySets.EntrySet.FeedAll | engine/tcp.go:133-144 | The reverse loop with in-place removal against the specified round; no entry object is lost. |
| EntrySets.EntrySet.CloseActiveEntries | engine/tcp.go:175-188 | Every active entry is closed once, first one first, and moved. |
| EntrySets.EntrySet.ProcessPropUpdate | engine/utils.go:25-50 | Merge, replace, delete and the kinds that change nothing. |
| EntrySets.StreamEntry.FeedEntry | engine/tcp.go:190-207 | One entry's feed with quota, cut and limited close. |
| TcpEngine.VerdictLanguage | engine/tcp.go:115-168 | Whatever analyzers and rules do, a stream's verdicts are plain accepts and then, forever, one stream verdict, which is that of the last match. |
| TcpEngine.SettledForever | engine/tcp.go:115-126 | A settled stream never changes and is never matched again. |
| TcpEngine.AnalyzersAccounted | engine/tcp.go:128-188 | In every run from the start active and done entries partition the initial ones, and the calls of each are explained by the pieces the stream saw, also after its end: byte for byte if no analyzer writes into them, else by pieces of the same size and kind. |
| TcpEngine.LimitsKept | engine/tcp.go:190-207 | In every run each analyzer was fed a beginning of the stream offered to it, no longer than its limit. |
| TcpEngine.PropertiesPublished | engine/tcp.go:128-207 | In every run, also after the end, what a ruleset sees under a name of one's own is exactly what that analyzer has published in answer to its calls, whatever the others do. |
| TcpEngine.PieceHandled | engine/tcp.go:128-168 | One piece for an unsettled stream: the ruleset is asked if and only if it is the first or an analyzer has published with it, is shown all that stands published, and its answer decides: Block and Drop drop the stream, Allow accepts it, Maybe and Modify let it go on until no analyzer is left. |
| TcpEngine.RulesetShown | engine/tcp.go:145-168 | In every run, an unsettled stream that has been matched was last shown exactly the properties it has; and to the end, what a ruleset was last shown under a name of one's own is all that this analyzer has published, if it publishes nothing in closing. |
| EngineParsers.PropertiesParsed | engine/tcp.go:128-207 | From pieces to properties: in every run, under the name of a parser of two machines stands exactly what each direction publishes for the bytes it has been fed, at once, and that is what the ruleset was last shown; while it is in use and nobody writes into the pieces, these are all the bytes of the stream. |
| EngineParsers.ParserGentle | analyzer/utils/bytebuffer.go:9-11 | Such a parser writes nothing into what it is fed, so the analyzers behind it see the stream as it came. |
| EngineParsers.HelloShown | analyzer/tcp/tls.go:13-93 | In every run with the TLS analyzer, once the client's bytes it was fed begin with a hello in a record, the ruleset has been asked, and was last shown exactly the fields of that hello under tls.req. |
| EngineParsers.RequestShown | analyzer/tcp/http.go:13-90 | The same for a request and http.req: method, path, version and every header. |
| EngineParsers.ServeTls | analyzer/tcp/tls.go:57-90 | The stream object answers any calls the engine may make as the analyzer does. |
| TcpEngine.TcpStream.ReassembledSG | engine/tcp.go:128-168 | One piece: round, match, close and drain against the specification, verdict included. |
| TcpEngine.TcpStream.ReassemblyComplete | engine/tcp.go:170-173 | The end of a stream closes what is active. |
| TcpEngine.HandleTcp | engine/worker.go:170-177 | Accept, then at most one piece, for a packet. |
| UdpEngine.OthersDoNotMatter | engine/udp.go:127-172 | As long as it is not evicted, a stream and its verdicts are what they would be if no other stream ID were ever used. |
| UdpEngine.TableBounded | engine/udp.go:116-172 | The table never exceeds its bound, whichever stream makes room. |
| UdpEngine.SettledRepeats | engine/udp.go:174-239 | A settled stream gives every later packet of its flow the verdict of the packet that settled it, never the plain accept and with no payload of its own, across other streams and reloads; it drops them all if and only if its last match said to block, and accepts them all whenever that said to allow. |
| UdpEngine.HandleConsistent | engine/udp.go:186-239 | The packet that settles a stream gets the verdict that is repeated, which is that of its last match; a modifying verdict on an unsettled stream means that the modifier has worked. |
| UdpEngine.DatagramHandled | engine/udp.go:186-239 | One datagram for an unsettled stream: when the ruleset is asked, what it is shown, and what comes of each answer: Allow and Block end the analysis with a stream verdict, Drop drops the packet, a modifier that works replaces the payload, all else goes on until no analyzer is left. |
| UdpEngine.VisitGood | engine/udp.go:110-172 | A packet only reaches a stream with its own flow, forwards or backwards; else a new one is made under the current ruleset. |
| UdpEngine.VisitMeans | engine/udp.go:110-152 | A packet is handled by the stream with its ID exactly if that has its flow, or its addresses and ports exchanged, which is then the direction; else by a new one. |
| UdpEngine.OthersStay | engine/udp.go:127-152 | No packet changes another stream, but for the one that makes room when the ID is new and the table is full. |
| UdpEngine.SnapshotKept | engine/udp.go:47-90 | A stream keeps the ruleset it was created with across any number of reloads. |
| UdpEngine.AnalyzersAccounted | engine/udp.go:186-271 | The partition and the calls of UDP analyzers, over every run of the table. |
| UdpEngine.AlwaysGood | engine/udp.go:127-271 | In every run of the table every stream is consistent, has its analyzers accounted for, shows under a name of one's own exactly what that analyzer has published, and its ruleset was last shown that. |
| UdpEngine.LimitsKept | engine/udp.go:260-271 | A limited analyzer had less than its limit before each datagram. |
| UdpEngine.ClosedOnlyWhenReplaced | engine/udp.go:127-152 | In every run, an analyzer that is active when its stream leaves the table is closed if and only if the stream was replaced by another flow under its ID; a stream dropped to make room keeps its analyzers active and unclosed. |
| UdpEngine.LeavesOnlySo | engine/udp.go:127-152 | A stream leaves the table in exactly these two ways. |
| UdpStreams.UdpStream.Feed | engine/udp.go:186-239 | One datagram against the specification, with the modifier's fallbacks. |
| UdpStreams.UdpStreamManager.MatchWithContext | engine/udp.go:127-152 | Lookup, collision, eviction and feed on the table of objects are one step of the table on values, departing streams included. |
| UdpStreams.UdpStreamManager.UpdateRuleset | engine/udp.go:92-97 | A reload is a step that leaves all streams as they are. |
| Dispatch.ConcurrentIsSerial | engine/worker.go:107-143 | In every interleaving the verdicts on a worker's packets are, in order of arrival and without a gap, those of handling them one after the other with the reloads in between; and a reload has reached the first factories and no others. |
| Dispatch.OneStreamOneWorker | engine/engine.go:91-115 | All packets of a stream are at one worker, in order of arrival. |
| Dispatch.WhereTo | engine/engine.go:91-115 | In every run a worker has only packets whose first half byte is 4 or 6 and whose stream ID leaves its number modulo the number of workers; verdicts on these are its own, and every other packet is let go with its stream. |
| Dispatch.EveryPacketOnce | engine/engine.go:91-115 | Every packet that arrived has exactly one verdict, or is in hand, queued or waiting, once. |
| Dispatch.NoDeadlock | engine/worker.go:107-127 | While the workers run, some packet without verdict can move. |
| Dispatch.AlwaysMoves | engine/worker.go:107-127 | So it is in every run from the start that has not been stopped. |
| Dispatch.MovesDrain | engine/worker.go:107-127 | Every such move is one step less to go. |
| UdpWorkers.StreamAlone | engine/worker.go:136-186 | In the whole engine, as long as it is not evicted, the packets of a UDP stream that have been handled are the first that arrived, in order, and their verdicts are those the stream would get alone, from exactly these packets and the reloads; a modified packet that cannot be serialised is accepted. |
| TcpWorkers.ConnectionsKept | engine/worker.go:136-177 | In every interleaving and for every assembler, each TCP connection, living or ended, has had a stretch of the packets of its flow, one after the other, as a stream made under a ruleset that was loaded before it began and kept to its end; what a worker has handled are the first of its packets, in order. |
| TcpWorkers.ConnectionLanguage | engine/tcp.go:115-168 | So its verdicts are plain accepts and then, forever, one stream verdict, that of its last match under that ruleset. |
| TcpWorkers.VerdictsGiven | engine/worker.go:145-177 | In the whole engine a verdict on a packet that is not UDP is the plain accept or one that a connection has given; packets of other protocols and those no connection takes are let through. |

## Left out

- Bytes.IndexAppend: the Go buffers share memory between a buffer and what is taken out of it; slices are values here, so such aliasing is not modelled.
- Lsm.LinearStateMachine.Answer: the loop of Run is written in each stream (RunReq and RunResp), because a Dafny object cannot hold the closures that change it; the class has its parts before and behind the call of a step.
- TlsStreams.TlsStream.Feed: requires that no machine has been cancelled, as for the other streams; the engine guarantees it, and what happens otherwise is stated by Lsm.RunCancelled.
- Socks.RespGood: the response side reads the version that the request side sets; the chunk theorem is for a fixed version, and RequestsFirst reduces conversations to it.
- Dns.FramingThroughMachine: the DNS message parser is an arbitrary function; so are text tokenising, integer parsing and address formatting elsewhere.
- QuicProtector.UnProtect: the AEAD decrypts into the packet itself; what the payload bytes hold afterwards is left open.
- QuicInitial.ReadPanics: maxLen only bounds the two slices whose length comes from the packet unchecked; the others have at most 255 bytes or the length of the datagram, and running out of memory below maxLen is not modelled.
- QuicInitial.ReadCryptoPayload: key derivation is an arbitrary function of connection ID and version; the sort is any sort.
- GeoMemo.GeoMatcher.MatchGeoSite: how a site list becomes a matcher and matches a host (domains, regular expressions) is an arbitrary function, and lower-casing is only assumed to be idempotent.
- Trojan.Detect: the decision tree over the four sizes is an arbitrary predicate.
- EntrySets.EntrySet.ProcessPropUpdate: a replaced map is stored as a value; in Go it stays shared with the analyzer that published it, and a nil map and an empty one are the same here.
- EngineParsers.PropertiesParsed: for parsers of two machines that share nothing and merge under req and resp, which TLS and HTTP are; SOCKS shares its version between them, and DNS replaces its properties.
- TcpEngine.HandleTcp: reassembly itself (ordering, buffering, expiry) is outside; a packet either brings one piece or none.
- UdpStreams.UdpStreamManager.MatchWithContext: which stream the LRU cache drops is an arbitrary choice.
- Dispatch.ConcurrentIsSerial: handling a packet is one step, since it reads a factory's ruleset at most once, under its lock; one reload at a time.
- Dispatch.OneStreamOneWorker: an empty packet, which the netfilter side never delivers (io/nfqueue.go:225), counts as unsupported here and would panic in Go.
- UdpWorkers.StreamAlone: packet decoding is an arbitrary function, the TCP half an arbitrary state (TcpWorkers has it), and of serialising a modified packet only whether it works.
- Entries.ServeLife: an analyzer writes into a payload only while it is being fed; one that keeps the slice and writes later is not modelled.
- Locks, logging and stream IDs from snowflake nodes.
- The openvpn, ssh and fully-encrypted-traffic analyzers, the DNS and QUIC counters of invalid packets in other analyzers: only easy members.
- The rule compiler and its expression engine, the loaders of geo data, nftables and netfilter I/O, the command line.
