# Mac9P: a verified model

Mac9P holds two 9P clients that share no code: a kernel extension written in C (`kext`) and a Swift client behind
FSKit (`fskit-core`, `fskit`). This project models the parts of both whose correctness is hardest to see from the
code, and proves what they are for. `dafny verify dfyconfig.toml` checks all of it.

Buffers that the source changes in place are arrays here and objects whose methods update their fields are classes,
each method proved against a function of the old state; the laws are then lemmas about those functions. Protocols
run by many threads or tasks are state machines over the steps between two lock operations, two suspensions of an
actor or two calls to the outside; their laws hold in every run of any number of threads.

## The parts

**The cipher stack** (kext/crypt.c, kext/auth.c): `Feistel`, `BlockCipher`, `KeySchedule`, `Cipher`, `PassToKey`,
`Auth`, with `CStrings`. A 16-round Feistel cipher (FIPS PUB 46-3, sections "Enciphering" and "Deciphering") slides an
eight-byte window in steps of seven over a buffer. Decryption unwinds the overlapping windows in reverse order, for
every S-box contents and every key table. Complementing key and buffer complements the output. Which bits of a half
each S-box sees (`Feistel.BoxSees`), which bits of the key each bit of a round key comes from
(`KeySchedule.ExpandExactly`) and which bytes each window works on (`Cipher.EncryptsOn`) is said without the indices
that the code computes. Tickets survive the trip, and short passwords over seven-bit characters never share a key.

**Messages** (kext/fcall.c, kext/fcall.h): `Codec`, `Messages`, `MessageReader`, `MessageDecoder`, `MessageEncoder`,
`MessageLaws`, `WirePlaces`. All 27 message types in both dialects (section 5 of the Plan 9 Programmer's Manual): sizes,
encoding, decoding with strings shifted inside the receive buffer, round trip, self-delimitation, canonicity, and for
each type the bytes where each of its fields lies.

**Directories** (kext/fcall.c, kext/proto.c): `Stat`, `StatPlaces`, `DirPackage`. Directory entries and the two-pass
unpacker that sizes its storage in the first pass and relies on that in the second.

**The Swift codec** (NinePWireCodec.swift, NinePDataCodec.swift): `SwiftWire`, `SwiftMessage`, and the agreement of the
two clients on every directory stream that the kernel client accepts.

**The Swift client** (NinePAsyncClient.swift, Mac9PVolume.swift): `AsyncClient` (tags and requests in flight),
`FidPool`, `Volume` (the reference-counted table of fids), `VolumeFids` (the one over the other), `Cookies` (resumable
listings, with any number of calls at once). What is owned is held, and what is held has an owner
(`Volume.HeldKept`, `Volume.NothingLeaks`); whoever waits is resumed when the connection goes
(`AsyncClient.EverybodyResumed`); an initial enumeration always lists afresh (`Cookies.InitialRefreshes`).

**Kernel concurrency** (kext/socket.c, kext/vnops.c): `SendLock`, `NodeTable`, and `NodeChains` for the hash chains
under it.

`Options` and `Sequences` are shared by all.

## What the code relies on

- Strings handed to the encoder are at most 65535 bytes and free of NUL, walks have at most sixteen elements, sizes
  fit in 32 bits. `MessageLaws.RoundTrip`, `MessageLaws.Canonical` and `Stat.StatRoundTrip` show that these are exactly
  the conditions under which nothing is lost.
- Fewer than 2^32-2 fids are taken fresh in one run (`FidPool.UsableExactly` shows what happens then), and fewer than
  2^32-1 directory generations. Listings have fewer than 2^32 entries.
- `releaseFid` is called once for each fid held. It does not check this; `FidPool.ReleaseExactly` shows that this is
  what the pool needs, and `VolumeFids.RunServed` that lookups and reclaims keep to it in the runs described next.
- `lookupItem` checks and inserts in two lock sections. The table is sound in all runs in which no insertion writes over
  an entry that an item or another lookup uses (`Volume.TableSound`), and in no others (`Volume.HarmlessExactly`). Runs
  in which no two first lookups of one id cross are among these (`Volume.UncrossedKeeps`), and some that cross are too
  (`Volume.CrossedUnharmed`).
- A late reply or late cancellation for an abandoned tag does not arrive while the tag has been handed out again to a
  request still pending. `AsyncClient.OwnRepliesExactly` shows that this is exactly what it takes, and
  `AsyncClient.RepliesReachTheirOwn` that it is enough to come before `nextTag` has gone round to the tag again.
- The server's qid paths differ from the identifiers that FSKit reserves, and the qid path of a kernel node is not
  changed by the later stat that overwrites `np->dir`.
- `nget_9p` is called with a real fid, and `msize` is greater than 24.
- keyexpand has 56 rows of fifteen entries, with indices below 128 and masks below 64; for complementation each of
  the 6x128 round-key bits must be driven by exactly one key bit (`KeySchedule.DrivenOnce`).

## What turned out otherwise

- Short passwords can share a key (`PassToKey.EighthBitCollides`); those over an alphabet never do exactly if all its
  characters have seven bits (`PassToKey.SevenBitsExactly`).
- A ticket or request loses the last byte of a name unless that is a terminator (`Auth.TicketRoundTrip`).
- When recvmsg_9p does not take a reply off the socket whole, by an error or by a size it turns down (without an error,
  kext/socket.c:74-77), rpc_9p unlocks with the rest still to come (`SendLock.FailureEndsAlternation`). Requests and
  replies alternate exactly as long as nothing is sent after that (`SendLock.AlternatesExactly`); a reply that is taken
  off whole and then refused by convM2S does no harm.
- A failed attach loses its fid, and nothing else does (`FidPool.FirstAttachFails`, `FidPool.LostExactly`,
  `FidPool.AccountedExactly`).
- A continuation for a directory without a snapshot, as after an unmount and a new mount, carries the index of its
  cookie over into a fresh listing (`Cookies.UnmountMixes`), unless the index is too large for that; exactly then two
  listings mix (`Cookies.StaysExactly`). The fresh listing also replaces one that another call has made meanwhile
  (`Cookies.OverwrittenMeanwhile`). The comment at fskit/Mac9PVolume.swift:342-343 says that a new generation is made
  only on the initial cookie; the model follows the code.
- In vnop_lookup_9p the test whether the node found already has the lookup's fid never spares it the clunk: a node that
  nget_9p finds always has another fid (`NodeTable.NotItsOwn`). Only a node just made has that one.
- Between kext/vnops.c:127 and :128 nget_9p holds neither the table lock nor the vnode, and the node it has found can go
  (`NodeTable.FoundAndGone`), exactly by the end of a reclaim of it (`NodeTable.StaysExactly`).
- The Swift client accepts directory entries with bytes left over that dirpackage refuses (`SwiftWire.SpareByte`);
  dirpackage accepts them too exactly if statcheck accepts each piece (`SwiftWire.SwiftIsLooser`).
- A reply that comes a whole wrap-around late reaches a stranger if its tag is in use again
  (`AsyncClient.LateReplyMisdelivered`, `AsyncClient.OwnRepliesExactly`); otherwise it is ignored.
- Two crossing first lookups can leave two fids for one id (`Volume.CrossingLookups`), exactly if the second insertion
  writes over an entry in use (`Volume.InsertExactly`). Whoever writes over an entry leaves its fid with nobody to give
  it back (`Volume.AdriftExactly`).


## Model

| member | source | states |
|---|---|---|
| `Feistel.TableEntries` | kext/crypt.c:247-286 | The bit formulas for iptab and fptab give exactly the 8 and 16 entries the source lists. |
| `Feistel.FpUndoesIp` | kext/crypt.c:247-313 | The final permutation takes back the initial one: fp of ip_low and ip_high is the block, for every block. |
| `Feistel.LowUndoesFp` | kext/crypt.c:252-313 | And the other way about: ip_low of what fp writes is the left half. |
| `Feistel.HighUndoesFp` | kext/crypt.c:266-313 | ip_high of what fp writes is the right half. |
| `Feistel.IpTransposes` | kext/crypt.c:252-278 | The initial permutation turns rows into columns: the low half is made of bits 0, 2, 4 and 6 of the eight bytes, an octet for each, the high half of bits 1, 3, 5 and 7. |
| `Feistel.RoundsUnwind` | kext/crypt.c:213-236 | For any round function: n rounds with the round keys read backwards, started on the swapped result, undo the last n rounds. |
| `Feistel.BlockInverse` | kext/crypt.c:205-242 | A block ciphered and then ciphered with the reversed keys is the block again, for arbitrary S-boxes and keys. |
| `Feistel.BoxSees` | kext/crypt.c:222-231 | With all other boxes silent, a round puts out what box j has for the six bits that start at bit 4j-1 of the half, cyclically, xor chunk j of the round key; for each of the eight boxes. |
| `Feistel.StepAdds` | kext/crypt.c:232-234 | A round takes the right half over and adds what it makes of it to the left. |
| `Feistel.OneRoundBlock` | kext/crypt.c:213-242 | A block of one round, seen through the initial permutation: the high half unchanged, the low half with the round output added. |
| `Feistel.MangleComplement` | kext/crypt.c:222-231 | Complementing half and round key leaves every S-box index, and so the round output, as it was. |
| `Feistel.RoundsComplement` | kext/crypt.c:221-236 | Complement passes through any number of rounds of a round function that is blind to it. |
| `Feistel.FpComplement` | kext/crypt.c:288-313 | fp commutes with complement. |
| `Feistel.BlockComplement` | kext/crypt.c:205-242 | Complementing the block and every round key complements the ciphered block. |
| `BlockCipher.IpLowLoop` | kext/crypt.c:252-264 | The loop computes the low half as the bits of the eight bytes it stands for, whatever lies around them. |
| `BlockCipher.IpHighLoop` | kext/crypt.c:266-278 | The same for the high half. |
| `BlockCipher.SpreadHalves` | kext/crypt.c:294-307 | The two nested loops leave the odd nibbles of both halves in v[0] and the even ones in v[1], each at its own shift. |
| `BlockCipher.WriteWord` | kext/crypt.c:308-312 | One word goes out as four bytes, lowest first; no other byte changes. |
| `BlockCipher.WriteOctets` | kext/crypt.c:308-312 | Both words: the eight bytes at the offset are replaced, all others stay. |
| `BlockCipher.FinalPermutation` | kext/crypt.c:288-313 | fp in place: the eight bytes become the final permutation of the halves. |
| `KeySchedule.OrRow` | kext/crypt.c:445-447 | One table row is or-ed in at its fifteen positions, repeated positions included. |
| `KeySchedule.BitRow` | kext/crypt.c:445-448 | One key bit: its row if it is set, nothing if not. |
| `KeySchedule.ByteRows` | kext/crypt.c:443-449 | The moving mask goes through the eight bits of a key byte, highest first. |
| `KeySchedule.KeySetup` | kext/crypt.c:433-451 | The expanded key is, at each of its 128 positions, the union of what the rows of the set key bits put there. |
| `KeySchedule.HighestFirst` | kext/crypt.c:443-448 | Row r is selected by bit 7-r%8 of key byte r/8: the highest bit of each byte comes first. |
| `KeySchedule.ExpandExactly` | kext/crypt.c:435-451 | A bit of the expanded key is set if and only if some key bit is set whose row puts it there. |
| `KeySchedule.RowsComplement` | kext/crypt.c:318-451 | If every round-key bit has one driver, the rows of a key and of its complement split each position between them, disjointly and completely. |
| `KeySchedule.ExpandComplement` | kext/crypt.c:433-451 | Hence complementing the key complements every round-key bit. |
| `KeySchedule.RoundKeysReversed` | kext/crypt.c:213-236 | The key that walks from 120 downwards reads the round keys in reverse order. |
| `KeySchedule.RoundKeysPlaced` | kext/crypt.c:213-236 | Round i finds its key at 8*i, or at 120-8*i when decrypting. |
| `KeySchedule.RoundKeysComplement` | kext/crypt.c:213-236 | Complementary expanded keys give complementary round keys. |
| `Cipher.WindowsCover` | kext/crypt.c:24-32 | The windows at 0, 7, 14, ... and the one flush with the end cover every byte and stay inside the buffer. |
| `Cipher.WindowsSlide` | kext/crypt.c:24-32 | Each window starts at the last byte of the one before it, except the last, which ends with the buffer. |
| `Cipher.EncryptsBlock` | kext/crypt.c:27-32 | Eight bytes are enciphered as one block. |
| `Cipher.EncryptsTwice` | kext/crypt.c:24-33 | Up to fourteen: the first eight, then the last eight as they are by then. |
| `Cipher.EncryptsOn` | kext/crypt.c:24-33 | From fifteen on: the first eight, then all but the first seven as a buffer of its own. With the two before it this fixes the encryption of every buffer. |
| `Cipher.EncryptsUnder` | kext/crypt.c:15-34 | encrypt_9p does this under the round keys in the order they lie in the expanded key, and nothing below eight bytes. |
| `Cipher.RunUndone` | kext/crypt.c:44-64 | Overlapping windows are undone by the inverse window operation run over them last first. |
| `Cipher.DecryptUndoesEncrypt` | kext/crypt.c:15-64 | For every key, table contents and buffer of any length, decrypting what was encrypted gives the buffer back. |
| `Cipher.EncryptUndoesDecrypt` | kext/crypt.c:15-64 | And encrypting what was decrypted. |
| `Cipher.EncryptedLength` | kext/crypt.c:15-64 | Neither changes the length. |
| `Cipher.EncryptComplement` | kext/crypt.c:15-34 | Complementing every bit of key and buffer complements every bit of the output, if each round-key bit is driven by exactly one key bit. |
| `Cipher.OneRound` | kext/crypt.c:222-234 | The assignments of one round make one Feistel step. |
| `Cipher.RoundLoop` | kext/crypt.c:213-236 | The round loop over the keys that lie where the moving key looks, in both directions; every read lies in the 128 bytes. |
| `Cipher.SixteenRounds` | kext/crypt.c:213-236 | The round loop with its moving key, in both directions: every read lies in the 128 bytes and sixteen rounds in the right key order come out. |
| `Cipher.BlockCipherLoop` | kext/crypt.c:205-242 | block_cipher in place: the eight bytes at the offset become the ciphered block, nothing else moves. |
| `Cipher.CipherWindow` | kext/crypt.c:27-32 | One window of a part of a larger buffer; the bytes around the part stay. |
| `Cipher.EncryptWindows` | kext/crypt.c:22-33 | The loop of encrypt_9p runs over exactly the listed windows, in order. |
| `Cipher.EncryptSlides` | kext/crypt.c:27-32 | The loop itself, with the quotient and remainder of the source. |
| `Cipher.DecryptWindows` | kext/crypt.c:51-63 | The loop of decrypt_9p runs over the same windows in reverse. |
| `Cipher.DecryptSlides` | kext/crypt.c:56-62 | The loop itself, from the end of the buffer down. |
| `Cipher.Encrypt` | kext/crypt.c:15-34 | encrypt_9p in place: false and no change below eight bytes, otherwise the encryption of the part and true; bytes around it stay. |
| `Cipher.Decrypt` | kext/crypt.c:44-64 | decrypt_9p likewise. |
| `PassToKey.Fill` | kext/crypt.c:75-81 | Truncation to 27 bytes, padding with spaces and the terminator, over any previous buffer contents. |
| `PassToKey.PackLoop` | kext/crypt.c:84-85 | The packing loop, for any way of making a byte out of two characters. |
| `PassToKey.EncryptWindow` | kext/crypt.c:94-94 | The window is encrypted in place, the rest of the password is not. |
| `PassToKey.Passtokey` | kext/crypt.c:69-97 | Ends for every password, stays within the 28 bytes with offset plus remaining length constant, and returns the key of the last window. |
| `PassToKey.FilledWith` | kext/crypt.c:75-81 | 27 characters count; behind fewer than eight lie a terminator and spaces. |
| `PassToKey.KeyBytes` | kext/crypt.c:84-85 | The seven bytes of the key, each from two neighbouring characters. |
| `PassToKey.KeyOfTwo` | kext/crypt.c:83-94 | Nine to fifteen characters: the last eight are enciphered under the key of the first eight, and packed. |
| `PassToKey.KeyOfMore` | kext/crypt.c:83-94 | From sixteen on: the second eight are enciphered under the key of the first eight, and the password goes on with them in front. |
| `PassToKey.PackValue` | kext/crypt.c:84-85 | The little-endian value of the key is the sum of t[j]*128^j over the window, for seven-bit characters. |
| `PassToKey.ShortPasswordsInjective` | kext/crypt.c:69-97 | Two passwords of at most eight non-NUL seven-bit characters with the same key are the same password. |
| `PassToKey.EighthBitCollides` | kext/crypt.c:84-85 | With eight-bit characters that fails: two different passwords with one key. |
| `PassToKey.EighthCharacterLost` | kext/crypt.c:84-85 | And an eighth character of 0x80 leaves no trace in the key at all. |
| `PassToKey.SevenBitsExactly` | kext/crypt.c:69-97 | Short NUL-free passwords over an alphabet never share a key if and only if all its characters are below 0x80. |
| `CStrings.UpTo` | kext/fcall.c:655-655 | What strlen sees: the longest NUL-free prefix; the whole string exactly if it holds no NUL. |
| `Auth.ConvT2M` | kext/auth.c:106-122 | A ticket is laid out in 72 bytes and sealed under the key, if there is one; bytes around it stay. |
| `Auth.ConvA2M` | kext/auth.c:124-138 | The same for an authenticator in 13 bytes. |
| `Auth.ConvTR2M` | kext/auth.c:89-104 | A ticket request in 141 bytes, never sealed. |
| `Auth.ConvM2T` | kext/auth.c:166-182 | Opens the ticket in place and takes it apart, terminating both names. |
| `Auth.ConvM2A` | kext/auth.c:152-164 | The same for an authenticator. |
| `Auth.ConvM2TR` | kext/auth.c:184-201 | Takes a request apart, terminating its four names. |
| `Auth.TicketPlaces` | kext/auth.c:106-122 | num[1] chal[8] cuid[28] suid[28] key[7]. |
| `Auth.RequestPlaces` | kext/auth.c:89-104 | type[1] authid[28] authdom[48] chal[8] hostid[28] uid[28]. |
| `Auth.AuthenticatorPlaces` | kext/auth.c:124-138 | num[1] chal[8] id[4], the lowest byte of id first. |
| `Auth.TicketRoundTrip` | kext/auth.c:106-182 | Under one key or none a ticket comes back with its names terminated; it comes back unchanged if and only if they were. |
| `Auth.RequestRoundTrip` | kext/auth.c:89-201 | The same for a request and its four names. |
| `Auth.AuthenticatorRoundTrip` | kext/auth.c:124-164 | An authenticator always comes back unchanged. |
| `Auth.SameText` | kext/auth.c:216-216 | strcmp: equal exactly if the bytes in front of the terminators are. |
| `Auth.Mkserverticket` | kext/auth.c:211-228 | EINVAL and nothing written if the two ids differ as C strings; otherwise two sealed tickets, AuthTc first, AuthTs behind it. |
| `Auth.ServerTicketsOpen` | kext/auth.c:211-228 | Each opens under authkey to its number and the challenge, user and session key; the user survives unchanged exactly if its last byte is the terminator. |
| `Codec.Gbit16Is` | kext/fcall.h:72-72 | Little-endian value of two bytes. |
| `Codec.Gbit32Is` | kext/fcall.h:73-73 | Little-endian value of four bytes. |
| `Codec.Gbit64Is` | kext/fcall.h:74-75 | Little-endian value of eight bytes. |
| `Codec.LERead` | kext/fcall.h:71-81 | Reading back n written bytes gives the number modulo 256^n. |
| `Codec.LEWrite` | kext/fcall.h:71-81 | Writing back what was read gives the same bytes. |
| `Codec.FieldUnique` | kext/fcall.c:240-273 | No bytes start with two different encodings of a field of one kind. |
| `Codec.FieldsUnique` | kext/fcall.c:285-647 | Nor with two different encodings of a list of fields of the same kinds. |
| `Messages.KindsByType` | kext/fcall.c:310-640 | The type alone decides which kinds of fields a message has. |
| `Messages.WireUnique` | kext/fcall.c:863-1091 | Self-delimiting: no buffer starts with the encodings of two different messages. |
| `MessageReader.LeadsKept` | kext/fcall.c:240-258 | Changing bytes behind the cursor end of earlier strings disturbs none of the pointers handed out. |
| `MessageReader.StringPlaced` | kext/fcall.c:248-256 | The shift by one byte and the terminator leave the unread bytes, and all earlier strings, as they were, and lead to the new string. |
| `MessageReader.Reader.constructor` | kext/fcall.c:292-293 | Nothing has been read; the bytes to come are those of the buffer. |
| `MessageReader.Reader.Gnum` | kext/fcall.h:71-75 | A bounds-checked number: its value, or failure exactly if too few bytes are left. |
| `MessageReader.Reader.TakeDown` | kext/fcall.c:252-256 | The memmove and the terminator in place. |
| `MessageReader.Reader.Gstring` | kext/fcall.c:240-258 | Fails exactly if no counted string fits in front of ep; otherwise the string, its terminated copy and the cursor behind it. |
| `MessageReader.Reader.Gqid` | kext/fcall.c:260-273 | A qid, or failure exactly if thirteen bytes are not left. |
| `MessageReader.Reader.Gdata` | kext/fcall.c:466-479 | Counted data in place, or failure if they reach beyond the buffer. |
| `MessageReader.Reader.Gblob` | kext/fcall.c:466-479 | The count and the data behind it, as one field read. |
| `MessageReader.Reader.Gnames` | kext/fcall.c:410-426 | Up to sixteen names one behind the other, each shifted down and terminated. |
| `MessageReader.Reader.Gqids` | kext/fcall.c:580-592 | Up to sixteen qids. |
| `MessageReader.Reader.String` | kext/fcall.c:240-258 | A string as the next field of the message, if the buffer carries one. |
| `MessageReader.Reader.NameList` | kext/fcall.c:410-426 | Likewise the counted list of names; more than sixteen fail. |
| `MessageReader.Reader.QidList` | kext/fcall.c:580-592 | Likewise the counted list of qids. |
| `MessageDecoder.Version` | kext/fcall.c:315-321 | The fields of Tversion and Rversion are read in wire order into their own members; fails only if the bytes are no such message. |
| `MessageDecoder.Auth` | kext/fcall.c:343-362 | The same for Tauth, with the number at the end in the .u dialect. |
| `MessageDecoder.Attach` | kext/fcall.c:386-408 | The same for Tattach. |
| `MessageDecoder.Walk` | kext/fcall.c:410-426 | The same for Twalk. |
| `MessageDecoder.Create` | kext/fcall.c:437-453 | The same for Tcreate, with the extension in the .u dialect. |
| `MessageDecoder.Transfer` | kext/fcall.c:455-479 | The same for Tread and Twrite. |
| `MessageDecoder.Request` | kext/fcall.c:428-509 | The same for Topen, Tclunk, Tremove, Tstat, Twstat, and for Tflush. |
| `MessageDecoder.QidReply` | kext/fcall.c:567-603 | The same for Rauth, Rattach, Rwalk, Ropen and Rcreate. |
| `MessageDecoder.Reply` | kext/fcall.c:536-640 | The same for the other replies. |
| `MessageDecoder.Body` | kext/fcall.c:310-640 | The switch: whatever the type, all its fields and no others are read. |
| `MessageDecoder.ReadHeader` | kext/fcall.c:292-308 | Accepts exactly if seven bytes are there and the size lies between seven and the bytes available. |
| `MessageDecoder.HeaderAhead` | kext/fcall.c:292-308 | What the header of any message a buffer carries must say. |
| `MessageDecoder.ConvM2S` | kext/fcall.c:285-647 | Returns 0 exactly if the buffer starts with no message; otherwise such a message and its size. Every string and data member then leads to its wire bytes inside the message, strings to terminated ones, and bytes behind the message are untouched. |
| `MessageEncoder.Pbit8` | kext/fcall.h:77-77 | Writes one byte and nothing else. |
| `MessageEncoder.Pbit16` | kext/fcall.h:78-78 | Writes the low 16 bits, little-endian, and nothing else. |
| `MessageEncoder.Pbit32` | kext/fcall.h:79-79 | Writes the low 32 bits and nothing else. |
| `MessageEncoder.Pbit64` | kext/fcall.h:80-81 | Writes the low 64 bits and nothing else. |
| `MessageEncoder.NamedSize` | kext/fcall.c:700-760 | The size arms with strings add up to the lengths of the encoded fields. |
| `MessageEncoder.RequestSize` | kext/fcall.c:700-784 | So do those of all requests. |
| `MessageEncoder.ReplySize` | kext/fcall.c:786-859 | And those of all replies. |
| `MessageEncoder.SizeS2M` | kext/fcall.c:683-861 | The length of the encoding; 0 exactly for an unknown type. |
| `MessageEncoder.Writer.constructor` | kext/fcall.h:77-81 | Nothing is written yet; the fields ahead encode to the bytes wanted. |
| `MessageEncoder.Writer.String` | kext/fcall.c:649-661 | pstring: the next field is written, the bytes before and behind stay. |
| `MessageEncoder.Writer.OneQid` | kext/fcall.c:663-674 | pqid likewise. |
| `MessageEncoder.Writer.Data` | kext/fcall.c:975-984 | Counted data likewise. |
| `MessageEncoder.Writer.NameList` | kext/fcall.c:934-945 | The count and the names, refused behind the count if there are more than sixteen. |
| `MessageEncoder.Writer.QidList` | kext/fcall.c:1044-1051 | The count and the qids, refused likewise. |
| `MessageEncoder.NamedBody` | kext/fcall.c:890-1031 | The arms with strings write all fields of their message. |
| `MessageEncoder.RequestBody` | kext/fcall.c:905-1006 | The arms of the other requests; fails exactly for a walk of more than sixteen names. |
| `MessageEncoder.ReplyBody` | kext/fcall.c:1033-1087 | The arms of the other replies; fails exactly for more than sixteen qids. |
| `MessageEncoder.ConvS2M` | kext/fcall.c:863-1091 | Writes exactly sizeS2M bytes, and they are the encoding of the message; 0 exactly for an unknown type, a buffer too small or a walk too long. Bytes behind the encoding stay. |
| `MessageLaws.RoundTrip` | kext/fcall.c:285-1091 | In both dialects and for all 27 types: decoding an encoded message, whatever follows it, gives all its fields and its size, if and only if no field was cut short by its encoding. |
| `MessageLaws.PrefixDecides` | kext/fcall.c:285-647 | Two buffers that agree in the size field and in the bytes it announces carry the same message, or both none, whatever follows. |
| `MessageLaws.CutLayout` | kext/fcall.c:649-661 | What the encoder sends of a decoded struct is each string up to its first NUL. |
| `MessageLaws.Canonical` | kext/fcall.c:285-1091 | Re-encoding an accepted message gives the bytes it came from, if and only if none of its strings holds a NUL. |
| `WirePlaces.HeaderLies` | kext/fcall.c:875-887 | size[4] type[1] tag[2] in front of every message; the size is that of the whole. |
| `WirePlaces.VersionLies` | kext/fcall.c:890-895 | Tversion and Rversion: msize[4] version[s]. |
| `WirePlaces.TauthLies` | kext/fcall.c:910-920 | Tauth: afid[4] uname[s] aname[s], and n_uname[4] in .u. |
| `WirePlaces.RauthLies` | kext/fcall.c:1036-1039 | Rauth: aqid[13]. |
| `WirePlaces.TattachLies` | kext/fcall.c:921-933 | Tattach: fid[4] afid[4] uname[s] aname[s], and n_uname[4] in .u. |
| `WirePlaces.RattachLies` | kext/fcall.c:1040-1043 | Rattach: qid[13]. |
| `WirePlaces.RerrorLies` | kext/fcall.c:1025-1032 | Rerror: ename[s], and errno[4] in .u. |
| `WirePlaces.TflushLies` | kext/fcall.c:905-909 | Tflush: oldtag[2]. |
| `WirePlaces.TwalkLies` | kext/fcall.c:934-946 | Twalk: fid[4] newfid[4] nwname[2], and the names. |
| `WirePlaces.RwalkLies` | kext/fcall.c:1044-1052 | Rwalk: nwqid[2], and the qids. |
| `WirePlaces.RwalkQidLies` | kext/fcall.c:1044-1052 | Qid k of an Rwalk lies at 9 + 13k. |
| `WirePlaces.NameLies` | kext/fcall.c:939-945 | Name k of a list lies behind the names before it: its count, then its bytes. |
| `WirePlaces.TopenLies` | kext/fcall.c:947-953 | Topen: fid[4] mode[1]. |
| `WirePlaces.OpenedLies` | kext/fcall.c:1053-1059 | Ropen and Rcreate: qid[13] iounit[4]. |
| `WirePlaces.TcreateLies` | kext/fcall.c:954-965 | Tcreate: fid[4] name[s] perm[4] mode[1], and extension[s] in .u. |
| `WirePlaces.TreadLies` | kext/fcall.c:966-974 | Tread: fid[4] offset[8] count[4]. |
| `WirePlaces.RreadLies` | kext/fcall.c:1060-1066 | Rread: count[4] data[count]. |
| `WirePlaces.TwriteLies` | kext/fcall.c:975-985 | Twrite: fid[4] offset[8] count[4] data[count]. |
| `WirePlaces.RwriteLies` | kext/fcall.c:1067-1071 | Rwrite: count[4]. |
| `WirePlaces.FidLies` | kext/fcall.c:986-996 | Tclunk, Tremove and Tstat: fid[4]. |
| `WirePlaces.RstatLies` | kext/fcall.c:1078-1084 | Rstat: stat[n]. |
| `WirePlaces.TwstatLies` | kext/fcall.c:997-1007 | Twstat: fid[4] stat[n]. |
| `WirePlaces.EmptyLies` | kext/fcall.c:1033-1087 | Rflush, Rclunk, Rremove and Rwstat: nothing. |
| `Stat.SizeD2M` | kext/fcall.c:25-43 | The size of the encoded entry, its own count included. |
| `Stat.ConvD2M` | kext/fcall.c:45-126 | Below two bytes 0; when the entry does not fit, 2, with the size needed in the count and nothing else written; otherwise the whole entry. |
| `Stat.Statcheck` | kext/fcall.c:128-152 | Accepts a buffer exactly if some entry decodes from the whole of it. |
| `Stat.TakeFixed` | kext/fcall.c:167-185 | The cursor over the numbers in front of the strings reads each from its place. |
| `Stat.CopyNext` | kext/fcall.c:196-208 | One string: its bounds, its copy, its terminator. |
| `Stat.CopyAll` | kext/fcall.c:195-209 | The loop over the strings. |
| `Stat.ConvM2D` | kext/fcall.c:156-238 | Returns the length and the fields of the entry the buffer starts with, or 0; the strings are stored terminated in order, within the storage of the entry, nothing else there changes. |
| `Stat.ConvM2DBare` | kext/fcall.c:217-223 | The variant without storage: the same length and numbers, empty strings. |
| `Stat.ReadSound` | kext/fcall.c:156-238 | What convM2D reads encodes to the bytes it was read from. |
| `Stat.ReadComplete` | kext/fcall.c:156-238 | Whatever entry a buffer starts with, convM2D reads that entry. |
| `Stat.DecodesUnique` | kext/fcall.c:156-238 | A buffer starts with one entry at most. |
| `Stat.CheckAgrees` | kext/fcall.c:128-238 | statcheck accepts exactly the buffers that convM2D consumes whole, in both dialects. |
| `Stat.StatRoundTrip` | kext/fcall.c:45-238 | What convD2M writes, with anything behind it, decodes to the same entry and length, if and only if each string is short enough for its count. |
| `StatPlaces.NumbersLie` | kext/fcall.c:60-88 | An entry: size[2] type[2] dev[4] qid[13] mode[4] atime[4] mtime[4] length[8] at the places 0 to 40. |
| `StatPlaces.StringsLie` | kext/fcall.c:89-110 | From place 41 on name, uid, gid, muid and in .u the extension, one behind the other. |
| `StatPlaces.TailLies` | kext/fcall.c:111-121 | And in .u n_uid[4] n_gid[4] n_muid[4] at the end. |
| `StatPlaces.StoredLies` | kext/fcall.c:195-209 | String k is stored behind the others and their terminators, with a terminator of its own. |
| `DirPackage.EntriesSound` | kext/proto.c:330-345 | An accepted stream is the concatenation of its entries, each of which passes statcheck. |
| `DirPackage.EntriesComplete` | kext/proto.c:330-345 | Every concatenation of such entries is accepted, and cut at the same places. |
| `DirPackage.FirstPass` | kext/proto.c:332-345 | Accepts exactly the streams made of entries and counts them; even on malformed input every byte looked at lies in the ts + DIRMAX of the buffer. |
| `DirPackage.UnpackAt` | kext/proto.c:356-364 | One entry goes into its own slot of the storage; no earlier slot changes. |
| `DirPackage.SecondPass` | kext/proto.c:353-365 | Never fails after the first pass; each entry is unpacked, in order. |
| `DirPackage.Dirpackage` | kext/proto.c:317-368 | EBADRPC exactly for a stream that is not made of entries; otherwise one struct an entry, and its strings in a slot of their own. |
| `DirPackage.StreamUnpacks` | kext/proto.c:317-368 | Any list of entries that can be sent is accepted as a stream and unpacks to that list. |
| `DirPackage.OnlyStreams` | kext/proto.c:317-368 | Nothing else is: every accepted stream is the encoding of some list. |
| `DirPackage.ReceivesAll` | kext/proto.c:391-415 | However the server cuts its stream into nonempty reads, and even where it sends more than was asked for, the stream arrives whole. |
| `DirPackage.FirstEnds` | kext/proto.c:410-415 | The first read that fails ends the reading with its error, however much has arrived before; the first that delivers nothing ends it with all the bytes up to there. |
| `DirPackage.Grow` | kext/proto.c:404-411 | The buffer grows by DIRMAX and keeps its bytes. |
| `DirPackage.Gather` | kext/proto.c:403-415 | The read loop ends with the bytes received, or with the error of the read that failed, always with DIRMAX bytes to spare. |
| `DirPackage.Readdirs` | kext/proto.c:391-422 | readdirs_9p as a whole: the entries of what was received, EBADRPC, or the error of a read. |
| `DirPackage.ReaddirsFaithful` | kext/proto.c:182-422 | A directory served as one stream is read as exactly the list it holds, in order. |
| `SwiftWire.Reader.constructor` | fskit-core/Sources/Mac9PCore/NinePDataCodec.swift:4-8 | The reader starts at the first byte. |
| `SwiftWire.Reader.Need` | fskit-core/Sources/Mac9PCore/NinePDataCodec.swift:10-12 | True exactly if n bytes are left. |
| `SwiftWire.Reader.U8` | fskit-core/Sources/Mac9PCore/NinePDataCodec.swift:14-19 | The next byte, or an error exactly at the end. |
| `SwiftWire.Reader.U16` | fskit-core/Sources/Mac9PCore/NinePDataCodec.swift:21-25 | The value that the GBIT macros of the kernel client find there, or an error exactly if too few bytes are left. |
| `SwiftWire.Reader.U32` | fskit-core/Sources/Mac9PCore/NinePDataCodec.swift:27-33 | The same for four bytes. |
| `SwiftWire.Reader.U64` | fskit-core/Sources/Mac9PCore/NinePDataCodec.swift:35-39 | The same for eight bytes. |
| `SwiftWire.Reader.Bytes` | fskit-core/Sources/Mac9PCore/NinePDataCodec.swift:41-46 | The next n bytes. |
| `SwiftWire.Reader.Str` | fskit-core/Sources/Mac9PCore/NinePDataCodec.swift:48-53 | The counted string, decoded; an error if it does not fit or is no UTF-8. |
| `SwiftWire.Reader.DecodeQid` | fskit-core/Sources/Mac9PCore/NinePWireCodec.swift:39-41 | A qid in wire order. |
| `SwiftWire.DecodeStat` | fskit-core/Sources/Mac9PCore/NinePWireCodec.swift:43-59 | The qid, numbers and four names of the entry from their places; whatever follows is passed over. |
| `SwiftWire.SplitDirReadIntoStats` | fskit-core/Sources/Mac9PCore/NinePWireCodec.swift:61-74 | The stream is cut by the counts alone and each piece decoded, in order; an error exactly if a piece does not fit or does not decode. |
| `SwiftWire.EntryAgrees` | fskit-core/Sources/Mac9PCore/NinePWireCodec.swift:43-59 | An entry the kernel client unpacks shows the same qid, mode, times, length and names here in either dialect, or is refused, exactly if one of the four names is no UTF-8. |
| `SwiftWire.EntriesArePieces` | kext/proto.c:330-345 | dirpackage accepts exactly the streams whose pieces all pass statcheck, and its entries are these pieces. |
| `SwiftWire.StreamAgrees` | fskit-core/Sources/Mac9PCore/NinePWireCodec.swift:61-74 | Every stream dirpackage accepts is accepted here, with as many entries and the same contents, if and only if all names shown are UTF-8. |
| `SwiftWire.SwiftIsLooser` | fskit-core/Sources/Mac9PCore/NinePWireCodec.swift:61-74 | What is accepted here dirpackage accepts if and only if statcheck accepts every piece. |
| `SwiftWire.SpareByte` | fskit-core/Sources/Mac9PCore/NinePWireCodec.swift:61-74 | A stream accepted here and refused by dirpackage in both dialects: one byte too many in an entry. |
| `SwiftMessage.Writer.U16` | fskit-core/Sources/Mac9PCore/NinePDataCodec.swift:59-59 | Appends two bytes, little-endian. |
| `SwiftMessage.Writer.U32` | fskit-core/Sources/Mac9PCore/NinePDataCodec.swift:60-65 | Appends four bytes. |
| `SwiftMessage.Writer.U64` | fskit-core/Sources/Mac9PCore/NinePDataCodec.swift:66-66 | Appends eight bytes, low half first. |
| `SwiftMessage.EncodeMessage` | fskit-core/Sources/Mac9PCore/NinePWireCodec.swift:4-19 | The four patched bytes are the size of the whole message. |
| `SwiftMessage.EncodeQid` | fskit-core/Sources/Mac9PCore/NinePWireCodec.swift:31-37 | The same thirteen bytes as the kernel client writes. |
| `SwiftMessage.DecodeHeader` | fskit-core/Sources/Mac9PCore/NinePWireCodec.swift:21-29 | EBADMSG for a message too short or of another size than it says, EPROTO for an unknown type, otherwise its parts. |
| `SwiftMessage.HeaderExactly` | fskit-core/Sources/Mac9PCore/NinePWireCodec.swift:4-29 | decodeHeader yields these parts if and only if the message is what encodeMessage makes of them and the type is known. |
| `SwiftMessage.RefusedFor` | fskit-core/Sources/Mac9PCore/NinePWireCodec.swift:21-29 | EPROTO exactly for an unknown type behind a right size; parts exactly for seven bytes or more, a right size and a known type. |
| `SwiftMessage.SameMessage` | fskit-core/Sources/Mac9PCore/NinePWireCodec.swift:4-19 | Over the same fields encodeMessage makes the very message that the kernel client makes. |
| `SwiftMessage.QidReads` | fskit-core/Sources/Mac9PCore/NinePWireCodec.swift:31-41 | decodeQid undoes encodeQid wherever the qid lies. |
| `AsyncClient.Allocates` | fskit-core/Sources/Mac9PCore/NinePAsyncClient.swift:194-201 | If some valid tag is free the search ends within one wrap-around, with a tag that is neither NOTAG nor in use, and passes over none it could have taken. |
| `AsyncClient.EventKeeps` | fskit-core/Sources/Mac9PCore/NinePAsyncClient.swift:62-125 | Requests, replies, errors, cancellations, bad headers and disconnects in any order keep every request either pending or resumed. |
| `AsyncClient.PendingOrResumedOnce` | fskit-core/Sources/Mac9PCore/NinePAsyncClient.swift:62-243 | Over every run each request made is pending under exactly one tag, or has been resumed, once and for all. |
| `AsyncClient.TagStillOwn` | fskit-core/Sources/Mac9PCore/NinePAsyncClient.swift:194-201 | Until nextTag has come round to it again, a tag leads to its own request or to nobody. |
| `AsyncClient.CausesMove` | fskit-core/Sources/Mac9PCore/NinePAsyncClient.swift:62-125 | A reply, error or cancellation with the tag of its own request settles another one if and only if that tag has been handed out again and its new holder is still pending; a wrong delivery is never undone. |
| `AsyncClient.OwnRepliesExactly` | fskit-core/Sources/Mac9PCore/NinePAsyncClient.swift:99-243 | Over every run, in whatever order replies come: no request is resumed on account of another if and only if no reply, error or cancellation comes while its tag has been handed out again to a request still pending. |
| `AsyncClient.RepliesReachTheirOwn` | fskit-core/Sources/Mac9PCore/NinePAsyncClient.swift:99-243 | In particular no request is resumed on account of another if late replies and late cancellations land before nextTag has come round to their tag. |
| `AsyncClient.ReplyArrives` | fskit-core/Sources/Mac9PCore/NinePAsyncClient.swift:113-121 | A reply to a pending request reaches it, with its body or with EPROTO. |
| `AsyncClient.ErrorArrives` | fskit-core/Sources/Mac9PCore/NinePAsyncClient.swift:103-243 | An Rerror or a cancellation resumes the request pending under its tag with that error, takes it out, and touches no other. |
| `AsyncClient.NobodyThere` | fskit-core/Sources/Mac9PCore/NinePAsyncClient.swift:103-243 | A reply, error or cancellation for a tag that nobody has changes nothing. |
| `AsyncClient.EverybodyResumed` | fskit-core/Sources/Mac9PCore/NinePAsyncClient.swift:62-101 | After a disconnect, or a message without a header, nobody is pending and everybody who was is resumed with the error of the connection; nobody else is. |
| `AsyncClient.RequestWaits` | fskit-core/Sources/Mac9PCore/NinePAsyncClient.swift:218-237 | A request that is sent waits under its own tag for its own type; one that cannot be sent is resumed at once; neither touches another. |
| `AsyncClient.LateReplyMisdelivered` | fskit-core/Sources/Mac9PCore/NinePAsyncClient.swift:99-125 | A run in which nothing is late and every request is resumed on its own account, behind which a reply one count too late is delivered to a stranger. |
| `AsyncClient.Client.constructor` | fskit-core/Sources/Mac9PCore/NinePAsyncClient.swift:18-29 | nextTag starts at 1 with nothing in flight. |
| `AsyncClient.Client.AllocTag` | fskit-core/Sources/Mac9PCore/NinePAsyncClient.swift:194-201 | The loop ends and returns the first free tag from nextTag on. |
| `AsyncClient.Client.RpcAsync` | fskit-core/Sources/Mac9PCore/NinePAsyncClient.swift:218-237 | Registers the request before sending, and takes it out again if sending fails. |
| `AsyncClient.Client.RemoveAndResume` | fskit-core/Sources/Mac9PCore/NinePAsyncClient.swift:107-113 | The entry under a tag, if any, is taken out and resumed; no other is. |
| `AsyncClient.Client.FailAllInflight` | fskit-core/Sources/Mac9PCore/NinePAsyncClient.swift:92-97 | The loop that changes the table it runs over resumes every entry once and leaves none. |
| `AsyncClient.Client.HandleIncoming` | fskit-core/Sources/Mac9PCore/NinePAsyncClient.swift:99-125 | A received message has the effect of its event. |
| `AsyncClient.Client.CancelTag` | fskit-core/Sources/Mac9PCore/NinePAsyncClient.swift:239-243 | So has a cancellation. |
| `AsyncClient.Client.Disconnect` | fskit-core/Sources/Mac9PCore/NinePAsyncClient.swift:62-73 | And a disconnect. |
| `FidPool.AllocFresh` | fskit-core/Sources/Mac9PCore/NinePAsyncClient.swift:203-209 | A fid handed out is not 0, not NOFID, nobody else's, and no longer free; the counter moves only if the stack is empty. |
| `FidPool.EventKeeps` | fskit-core/Sources/Mac9PCore/NinePAsyncClient.swift:129-156 | 1 to nextFid-1 stays the disjoint union of free fids, without duplicates, those in use, those of attaches under way and those of failed ones. |
| `FidPool.PoolConserved` | fskit-core/Sources/Mac9PCore/NinePAsyncClient.swift:129-209 | Over every run nextFid-1 is the largest number of fids out at once so far, and free and handed-out ones add up to it. |
| `FidPool.ReleaseExactly` | fskit-core/Sources/Mac9PCore/NinePAsyncClient.swift:151-156 | releaseFid keeps the pool in order if and only if the fid is in use or one that it passes over. |
| `FidPool.LastReleasedFirst` | fskit-core/Sources/Mac9PCore/NinePAsyncClient.swift:151-209 | The fid released last is handed out next. |
| `FidPool.UsableExactly` | fskit-core/Sources/Mac9PCore/NinePAsyncClient.swift:203-209 | allocFid yields a usable fid if and only if a fid is free or the counter has not come to NOFID; there it yields 0. |
| `FidPool.LostExactly` | fskit-core/Sources/Mac9PCore/NinePAsyncClient.swift:129-136 | Over every run the fids lost are those of the attaches that failed, no more and no fewer; none ever comes back. |
| `FidPool.AccountedExactly` | fskit-core/Sources/Mac9PCore/NinePAsyncClient.swift:129-209 | From the start on, every fid taken is free or in use if and only if no attach has failed and none is under way. |
| `FidPool.FirstAttachFails` | fskit-core/Sources/Mac9PCore/NinePAsyncClient.swift:129-136 | A run that loses a fid: the first attach fails. |
| `FidPool.Client.constructor` | fskit-core/Sources/Mac9PCore/NinePAsyncClient.swift:19-22 | Counter at 1, nothing free, nothing in use. |
| `FidPool.Client.AllocFid` | fskit-core/Sources/Mac9PCore/NinePAsyncClient.swift:203-209 | The last released fid, or the counter past its reserved values. |
| `FidPool.Client.AllocateFid` | fskit-core/Sources/Mac9PCore/NinePAsyncClient.swift:144-148 | Allocates and records the fid as in use. |
| `FidPool.Client.ReleaseFid` | fskit-core/Sources/Mac9PCore/NinePAsyncClient.swift:151-156 | Moves the fid from in use to free, except the reserved ones and the root. |
| `FidPool.Client.BeginAttach` | fskit-core/Sources/Mac9PCore/NinePAsyncClient.swift:129-132 | attach takes a fid before its RPC. |
| `FidPool.Client.EndAttach` | fskit-core/Sources/Mac9PCore/NinePAsyncClient.swift:133-136 | And records it as root and in use only if the RPC succeeds. |
| `Volume.FidTable.ShareExisting` | fskit/Mac9PVolume.swift:283-290 | The first lock section of lookupItem. |
| `Volume.FidTable.EnterNew` | fskit/Mac9PVolume.swift:300-302 | The second one. |
| `Volume.FidTable.ReclaimItem` | fskit/Mac9PVolume.swift:173-182 | The lock section of reclaimItem. |
| `Volume.StepKeeps` | fskit/Mac9PVolume.swift:169-311 | Every step of any number of lookups and reclaims keeps one owner for every fid, every user of an entry backed by it, and every count between its users and all those ever counted, unless an insertion writes over an entry in use. |
| `Volume.RunKeeps` | fskit/Mac9PVolume.swift:169-311 | So does every run without such insertions. |
| `Volume.CountsKept` | fskit/Mac9PVolume.swift:169-311 | A step that crosses no first lookup moreover loses no count, that of a lookup whose clunk failed included. |
| `Volume.UncrossedKeeps` | fskit/Mac9PVolume.swift:169-311 | Runs in which no two first lookups of one id cross have no such insertions, and lose no count. |
| `Volume.TableSound` | fskit/Mac9PVolume.swift:133-311 | From mount on, in every run in which no insertion writes over an entry in use: live items of one id share one fid, those of different ids never do, a live item's fid is held and nobody else owns it, and refCount is never below the number of live items, and equal to it when no clunk failed or is under way. |
| `Volume.ReleasedOnce` | fskit/Mac9PVolume.swift:186-188 | A fid goes back to the pool at most once, and only when no live item has it. |
| `Volume.CheckFinds` | fskit/Mac9PVolume.swift:283-298 | A lookup whose check finds an entry takes over its fid and is counted; one that enters its own has found none. |
| `Volume.FailureKeeps` | fskit/Mac9PVolume.swift:169-311 | A call that fails gives no fid back and leaves the table as it is, a count already taken included. |
| `Volume.HeldPassesOn` | fskit/Mac9PVolume.swift:169-311 | Each step that crosses no first lookup hands every fid held on to the root, an entry or a task, or gives it back. |
| `Volume.AdriftExactly` | fskit/Mac9PVolume.swift:299-305 | An insertion leaves a fid that is held with nobody to hold it if and only if it writes over an entry of another fid than the root. |
| `Volume.HeldKept` | fskit/Mac9PVolume.swift:169-311 | Over every run without crossing first lookups, each fid held is the root or belongs to an entry or a task. |
| `Volume.NothingLeaks` | fskit/Mac9PVolume.swift:133-311 | From mount on, where no call fails and no first lookups cross, once all is quiet every fid held but the root is that of an entry with a live item. |
| `Volume.InsertExactly` | fskit/Mac9PVolume.swift:283-305 | An insertion leaves the items sound in every such run from there on if and only if no item of the id and no lookup uses the entry it writes over. |
| `Volume.InsertAtOnce` | fskit/Mac9PVolume.swift:299-305 | It leaves them sound at that moment if and only if there is no item of the id. |
| `Volume.CountKeptExactly` | fskit/Mac9PVolume.swift:299-305 | It loses a count if and only if an entry has appeared since the check. |
| `Volume.HarmlessExactly` | fskit/Mac9PVolume.swift:169-311 | The items are sound for good all along a run if and only if none of its insertions writes over an entry in use. |
| `Volume.CrossingLookups` | fskit/Mac9PVolume.swift:283-305 | A run of two crossing first lookups that leaves two fids for one id, and a live item without an entry once the first is reclaimed. |
| `Volume.CrossedUnharmed` | fskit/Mac9PVolume.swift:283-311 | A run with crossing first lookups that does no harm: the entry written over is left from a failed lookup and nobody uses it. |
| `Cookies.DecodeEncode` | fskit/Mac9PVolume.swift:344-354 | decodeCookie undoes encodeCookie, and no encoded cookie is the initial one, for every generation but 0. |
| `Cookies.Volume.constructor` | fskit/Mac9PVolume.swift:53-54 | No snapshots; generations start at 1. |
| `Cookies.PackLoop` | fskit/Mac9PVolume.swift:414-430 | The loop packs the entries from the index on, each with the cookie behind it, up to the first one turned down. |
| `Cookies.Volume.LookUp` | fskit/Mac9PVolume.swift:383-412 | Up to the fetch: the directory has to be fetched, or the cached snapshot answers if the generation matches, or the cookie is refused. |
| `Cookies.Volume.StoreFresh` | fskit/Mac9PVolume.swift:393-430 | From the fetch on: a fresh snapshot under a new generation replaces whatever is there, and is listed from the index on. |
| `Cookies.StepKeeps` | fskit/Mac9PVolume.swift:153-435 | With any number of calls at once, and unmounts, generations never change hands: each stays with the one listing of the one directory it was given out for. |
| `Cookies.RunKeeps` | fskit/Mac9PVolume.swift:153-435 | The same over every run. |
| `Cookies.AnswerStays` | fskit/Mac9PVolume.swift:401-412 | A continuation that finds a snapshot reports entries of the very listing its cookie came from, from its index on, or is refused. |
| `Cookies.FreshServes` | fskit/Mac9PVolume.swift:392-412 | One that finds none is served from a listing made for it, unless its index lies beyond that. |
| `Cookies.StaysExactly` | fskit/Mac9PVolume.swift:383-412 | With any steps of other calls in between: a continuation never mixes two listings if and only if the directory has a snapshot when it looks, or its index lies beyond what it then fetches. |
| `Cookies.InitialIsFresh` | fskit/Mac9PVolume.swift:378-398 | Whatever is listed to a call with the initial cookie is a listing made for it, from its first entry on, under a generation that did not exist before. |
| `Cookies.OfflineKeeps` | fskit/Mac9PVolume.swift:392-393 | Without a connection nothing is fetched; only a continuation with a snapshot is answered. |
| `Cookies.FailureKeeps` | fskit/Mac9PVolume.swift:392-435 | A fetch that fails stores and reports nothing. |
| `Cookies.InitialRefreshes` | fskit/Mac9PVolume.swift:378-398 | So over the whole call, with any steps of others in between: its generation was not there when the call began. |
| `Cookies.UnmountMixes` | fskit/Mac9PVolume.swift:133-161 | A run in which it does: list, unmount, mount again, continue. |
| `Cookies.SnapshotKeptExactly` | fskit/Mac9PVolume.swift:153-400 | A step keeps the snapshot of a directory if and only if it does not store another listing of it and does not unmount. |
| `Cookies.OverwrittenMeanwhile` | fskit/Mac9PVolume.swift:387-398 | A run in which a continuation that found no snapshot replaces a listing made meanwhile, whose cookies are refused from then on. |
| `Cookies.OlderCookieRejected` | fskit/Mac9PVolume.swift:392-405 | Once a newer listing of a directory is stored, and whatever happens after that, an older cookie of it is refused if and only if the directory has a snapshot then; short of an unmount it has. |
| `Cookies.OneMore` | fskit/Mac9PVolume.swift:401-430 | One continuation reports the next entries of the snapshot, as many as are accepted, and leads behind them. |
| `Cookies.ResumesWithoutGap` | fskit/Mac9PVolume.swift:401-430 | For any schedule of cut-offs and any steps of other calls that do not disturb the snapshot, resuming from the last accepted entry's cookie reports the entries from there on once each, in order. |
| `Cookies.ListsEverythingOnce` | fskit/Mac9PVolume.swift:378-435 | The same from an initial enumeration that accepts an entry on. |
| `VolumeFids.WalksFresh` | fskit/Mac9PVolume.swift:273-274 | The fid that a lookup walks with is held by nobody. |
| `VolumeFids.StepServed` | fskit/Mac9PVolume.swift:169-311 | Every release that lookupItem and reclaimItem make is of a fid in use, as releaseFid needs it, unless an insertion writes over an entry in use; volume and pool keep agreeing on the fids held. |
| `VolumeFids.RunServed` | fskit/Mac9PVolume.swift:169-311 | So the whole run keeps the discipline that the fid pool relies on; the pool ends where these releases and allocations lead it, and still agrees with the volume. |
| `VolumeFids.FidsConserved` | fskit/Mac9PVolume.swift:169-311 | Over every such run the fids held by tasks and entries, those of attaches, and the free ones are all that were ever taken, and no more were taken than were ever out at once. |
| `VolumeFids.MountCouples` | fskit/Mac9PVolume.swift:133-151 | Mount leaves volume and pool in agreement. |
| `SendLock.ExclusiveKept` | kext/socket.c:230-268 | At most one thread holds the lock, and one does exactly if the flag is set: kept by every step. |
| `SendLock.WakeupKept` | kext/socket.c:230-268 | If anybody sleeps, both flags are set or some thread owes a wakeup: kept by every step. |
| `SendLock.InStepKept` | kext/socket.c:361-413 | Requests and replies take turns on the socket: kept by every step but a receive that does not take the reply off whole. |
| `SendLock.StepKeeps` | kext/socket.c:230-413 | All three together. |
| `SendLock.AllRuns` | kext/socket.c:230-413 | In every interleaving of any number of threads: one holder from encoding to the end of the reply on every path, no lost wakeup, and strict alternation until a reply is not taken off the socket whole. |
| `SendLock.Initially` | kext/socket.c:230-246 | It holds at the start. |
| `SendLock.SleepersWaitForSomeone` | kext/socket.c:238-241 | While anybody sleeps another thread owes the wakeup or will owe it on unlocking, and nothing keeps it from its next step. |
| `SendLock.WakeupReachesAll` | kext/socket.c:266-267 | The wakeup leaves nobody asleep. |
| `SendLock.OneStepNearer` | kext/socket.c:230-268 | Each step of that thread wakes the sleeper or brings the wakeup nearer, and no other thread puts it off. |
| `SendLock.SleepersWake` | kext/socket.c:230-413 | In every run in which it takes its remaining steps, at most four, the sleeper wakes. |
| `SendLock.UnlockFindsLock` | kext/socket.c:257-258 | rpcunlock never panics: who unlocks finds the flag set. |
| `SendLock.FailureEndsAlternation` | kext/socket.c:74-77 | After a reply that was not taken off whole the next request does follow a request: a run that shows it. |
| `SendLock.AfterFailure` | kext/socket.c:384-387 | Behind such a receive, alternation lasts exactly until the next request is sent. |
| `SendLock.AlternatesExactly` | kext/socket.c:361-413 | In any run, requests and replies alternate if and only if no request is sent after a reply that was not taken off whole; replies taken off and refused by convM2S do no harm. |
| `SendLock.Mount.TestAndSet` | kext/socket.c:237-244 | One round of rpclock's loop on the two flags is the step. |
| `SendLock.Mount.ClearFlags` | kext/socket.c:255-266 | So is rpcunlock up to its wakeup. |
| `NodeTable.Hit` | kext/vnops.c:113-115 | A listed node of the path; none exactly if no listed node has it. |
| `NodeTable.ScanFinds` | kext/vnops.c:112-167 | The loop ends with a listed node of the path or a new one, sleeps exactly if the node is flagged, and makes a new one exactly if no listed node has the path. |
| `NodeTable.FoundGoesOn` | kext/vnops.c:126-131 | A lookup that gets the vnode keeps the node and clunks its own fid; one that does not looks again. |
| `NodeTable.NoUseForIt` | kext/vnops.c:147-151 | Without memory the lookup clunks its fid, and the table stays as it is. |
| `NodeTable.ReclaimUnlists` | kext/vnops.c:1152-1155 | A reclaim marks the node and takes it off its chain. |
| `NodeTable.ReclaimGoes` | kext/vnops.c:1165-1178 | It clunks the fid of the node, or leaves it to the unmount, and frees the node. |
| `NodeTable.InitEnds` | kext/vnops.c:169-209 | With a vnode the new node stays under the fid of the lookup, without flags; without one it goes and the fid must be clunked. |
| `NodeTable.PathsKept` | kext/vnops.c:112-167 | No step puts a second node with the same qid path on the chains. |
| `NodeTable.NotItsOwn` | kext/vnops.c:294-296 | A node that nget_9p finds never has the fid of the lookup that found it, so vnop_lookup_9p always clunks that one. |
| `NodeTable.FidsKept` | kext/vnops.c:282-303 | Every fid obtained is carried by one thread, or owned by one node, or clunked, or left to the unmount; one of these and no more, after every step. |
| `NodeTable.WorkersDistinct` | kext/vnops.c:164-226 | No two threads come to initialise or reclaim one node. |
| `NodeTable.StillWorked` | kext/vnops.c:164-226 | A node with NODE_INIT or NODE_RECL set always has a thread at work on it. |
| `NodeTable.OthersFit` | kext/vnops.c:116-125 | What a sleeper waits for keeps its wait flag until the wakeup. |
| `NodeTable.AttendedKept` | kext/vnops.c:99-226 | All of this about flags, workers and sleepers is kept by every step. |
| `NodeTable.StepKeeps` | kext/vnops.c:99-303 | The whole invariant is kept by every step of any thread. |
| `NodeTable.Initially` | kext/vnops.c:110-113 | It holds of the empty table. |
| `NodeTable.AllRuns` | kext/vnops.c:99-303 | It holds after every run of any number of threads. |
| `NodeTable.SleeperHasWorker` | kext/vnops.c:116-125 | Under each sleeper another thread is at work on the node, and the table does not keep it from its next step. |
| `NodeTable.OneStepNearer` | kext/vnops.c:169-209 | A step of that thread wakes the sleeper or is one of at most two before that; no other thread's step changes this. |
| `NodeTable.SleepersWake` | kext/vnops.c:116-226 | No missed wakeup: in every run in which that thread takes its remaining steps the sleeper wakes. |
| `NodeTable.ClunkedOnce` | kext/vnops.c:294-296 | A step clunks a fid that was not clunked before, and only that one. |
| `NodeTable.ClunkedIsGone` | kext/vnops.c:294-296 | Nobody carries or owns a clunked fid. |
| `NodeTable.EveryFidAccounted` | kext/vnops.c:282-303 | While mounted, once all lookups and reclaims are through, each fid walked is clunked or owned by exactly one node, not both. |
| `NodeTable.NodeGoes` | kext/vnops.c:1165-1178 | An initialised node goes with the end of its reclaim and with no other step. |
| `NodeTable.StaysExactly` | kext/vnops.c:126-129 | A node that has been found is still there later if and only if no reclaim of it has ended meanwhile. |
| `NodeTable.FoundAndGone` | kext/vnops.c:126-128 | A run after which a thread is about to take the vnode of a node that is gone. |
| `NodeChains.Unlinked` | kext/vnops.c:224-224 | LIST_REMOVE: that node is gone from the chain, all others stay, none twice. |
| `NodeChains.HitIs` | kext/vnops.c:110-115 | With paths unique, the chain a path hashes to leads to the node the whole table has for it. |
| `NodeChains.Mount.Scan` | kext/vnops.c:110-167 | The loop over one chain, up to giving up the lock, is the step: sleep, found, or a new node at the head of the chain. |
| `NodeChains.Mount.Initialised` | kext/vnops.c:203-209 | The successful end of initialising: flags cleared, wakeup exactly if someone waits. |
| `NodeChains.Mount.Withdrawn` | kext/vnops.c:172-181 | The failed one: the node is off its chain as well. |
| `NodeChains.Mount.Ndel` | kext/vnops.c:216-226 | ndel_9p takes the node off its chain. |
| `NodeChains.Mount.Freed` | kext/vnops.c:1169-1178 | The end of vnop_reclaim_9p: the node is gone, wakeup exactly if someone waits. |

## Left out

- Sockets, connecting, timeouts, partial sends, the kernel's buffer cache and its vnode layer: foreign calls. A server is a function from offsets to answers, a vnode that is lost or cannot be had a step that may happen.
- The `USE_UPCALL` variants of kext/socket.c, error-number mapping, request tags of rpc_9p, printFcall: not compiled, plain tables, or debugging.
- Failing allocations, except in `nget_9p`, where they decide who clunks the fid.
- ncreate_9p, vnop_open_9p, nwrite_9p, vfs_vget_9p and readdir_9p with its single read: they would add easy members, or conventions of the kernel that are not visible in this code.
- The Swift `readDir` loop, which stops at the first short read; the completeness of a listing is proved of readdirs_9p.
- The RPC helpers of both Swift clients, mount strings, version candidates, authentication dialogues, the tools, installers and the app: straight-line code, I/O or UI.
- The published contents of the S-boxes and of keyexpand: the proofs are for all tables with the stated shape.
- `long` in kext/crypt.c is modelled as a 32-bit word: with 64-bit words no bit above the lowest 32 ever reaches the output. `ulong` is 32 bits wide (kext/plan9.h:6).
- `.` and `..` in enumerateDirectory carry cookie 0 and depend on how FSKit restarts.
- What enumerateDirectory fetches between its two lock sections is a parameter, and so is how many entries the packer takes.
- Members that a decoded message does not carry keep what was in the struct before; the model says nothing about them beyond that they play no part.
- Decoded strings are values in the model; where their bytes lie in the buffer is kept in ghost state (`MessageReader.Trail`), and `MessageDecoder.ConvM2S` states it.
- Bounds that convM2S checks once for several fields are checked field by field; which messages are accepted is the same.
- statcheck and convM2D take the bytes of one entry as a sequence; the storage that convM2D fills is an array.
- A Swift `Data` starts at index 0, as all those reaching this code do; for a slice the bounds check in `need` would count from the wrong end. Whether bytes are UTF-8, and which string they are, is a parameter.
- The order of the locks of single nodes (`nlock_9p`). From the success of vnode_getwithvid on the vnode layer keeps the node; what kext/vnops.c:128 reads of a node that has gone before that is not modelled, only that it can have gone.
- The hash of the node table is the remainder of the path by the number of chains, which is what the mask in `HASH9P` computes for a power of two.
- Nodes made by other callers of `nget_9p` than vnop_lookup_9p, and the clunk of the root at unmount: fids dropped while unmounting are counted apart.
- Volume.TableSound: for runs in which no insertion writes over an entry in use; in any other it is lost, as Volume.HarmlessExactly shows.
- AsyncClient.RepliesReachTheirOwn: for runs without replies that come a whole wrap-around late; AsyncClient.OwnRepliesExactly is the exact condition.
- SendLock.AllRuns: alternation is stated until a reply is not taken off whole; SendLock.AlternatesExactly says when it lasts. A send that fails puts nothing on the socket here, though sendn_9p can have sent a part.
- Cookies.ListsEverythingOnce: while no other listing of the directory is stored in between; then Cookies.OlderCookieRejected applies.
- VolumeFids.RunServed: for the runs of Volume.TableSound.
