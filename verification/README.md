# cntlm in Dafny

A model of the authenticating HTTP proxy in cntlm-0.92.3, and proofs about it. Four parts:

- **Ciphers and hashes** (`xcrypt.c`, and the keys made in `ntlm.c`): the table-driven DES against FIPS 46-3 (`Fips46`,
  `DesRefinement`), its symmetries (`DesProperties`, `WeakKeys`), buffered MD4 and MD5 against RFC 1320 and RFC 1321
  (`Md4`, `Md5`, `Digest`, `HashContext`), HMAC-MD5 against RFC 2104 (`Hmac`).
- **NTLM messages** (`ntlm.c`, Base64 in `utils.c`): the target-info walk (`TargetInfo`), the message layout
  (`AuthMessage`), the way from a challenge to a response that a server accepts (`NtlmResponse`, `NtlmKey`), all of it against
  MS-NLMP (`MsNlmp`, `NtlmStandard`), Base64 with a bounded buffer (`Base64`), and from the proxy's header to cntlm's own
  (`Tokens`).
- **Connections** (`forward.c`, lists of `utils.c`): the pool (`Plist`), the choice of a parent proxy alone and among
  threads (`Parents`, `ParentThreads`), what becomes of headers on their way (`Rewriting`), the forwarding thread
  (`Forward`) as an instance of a state machine whose every run the lemmas of `ForwardRuns` are about, and any
  number of such threads on one pool (`PoolThreads`).
- **The wire** (`http.c`, `socket.c`, `acl.c`): lines, chunks and lengths over arbitrary reads (`Sockets`, `Chunks`,
  `ChunkedBodies`, `Bodies`), which body belongs to a message (`BodyRules`), heads of messages printed and read
  (`HeaderText`, `HeaderTransfer`, `HeaderRoundTrip`, `FirstLines`, `Urls`, `Decimals`),
  header lists (`Headers`, `Names`, `Messages`), access rules (`Acl`).

Conventions. Machine words are bit-vectors and lengths of input are unbounded integers. Methods follow the C functions, with
their loops and their state; the functions beside them say what they compute, and the lemmas are about those functions.
Answers from outside (whether a socket is closed, what a proxy replies, how much a read gives, whether a buffer is aligned, time
and nonce) are chosen arbitrarily. A `ghost` parameter names what has been done so far and is not part of the program.

What the code does differently from what it is meant to do is stated as it is, with its exact condition where there is one:

- the carry test of the byte counter (`Digest.CounterExactWhen`), and so the padding (`HashContext.BlocksExactWhen`,
  `HashContext.PaddingIsStandardWhen`),
- the target-info walk above 65535 bytes (`TargetInfo.AdvancesExactlyUpTo65535`),
- the NT response placed at a fixed distance (`AuthMessage.FieldsAreRead`, `AuthMessage.FaithfulProfiles`) and the message
  buffer (`AuthMessage.AllMessagesFit`),
- the unconditional byte swap of the access rules (`Acl.BigEndianRightWhen`),
- dropping the reply to a probe after changing its code (`Messages.DropsTheBodyUnless`),
- a probe that still announces a body (`Forward.ProbeAnnouncesNoBodyWhen`),
- a retry that asks the client for a body it has already sent (`ForwardRuns.BodyIsTakenOnceUnlessRetried`),
- a result of 0 that passes for a connection (`ForwardRuns.SendsGoToDescriptors`),
- a connection that counts as authenticated and is stored, but is not authenticated
  (`ForwardRuns.StoredAuthenticatedWhen`),
- a reply to a probe whose body is read from another connection than its head (`ForwardRuns.ProbeReplyIsWholeWhen`),
- a pool whose list is looked at after it has been freed (`PoolThreads.HeadDanglesWhen`),
- threads that move the choice of a parent on under each other (`ParentThreads.NextLookupIsAfterWhen`,
  `ParentThreads.GivesUpAfterAllWhen`, `ParentThreads.WorkingParentIsSelectedWhen`),
- headers that do not come back (`HeaderRoundTrip.HeadersComeBackWhen`),
- a path that is taken for an empty host (`Urls.HostIsBeforePathWhen`),
- a Content-Length of 0 that hides chunks (`BodyRules.ZeroHidesChunks`),
- chunks that are too large (`ChunkedBodies.ChunkPassesWhen`, `Chunks.UndefinedWhen`).

Where a comment of the source says more than the code does, the model follows the code: `proxy_connect` is said to scan the
whole list until a working proxy is found, which all threads then use (cntlm-0.92.3/forward.c:44-51). The first holds for a
thread exactly if the others fail in step with it (`ParentThreads.GivesUpAfterAllWhen`), the second exactly if they fail a
multiple of n times while it tries the parent (`ParentThreads.WorkingParentIsSelectedWhen`).

`dafny verify dfyconfig.toml` checks the whole project.

## Model

| member | source | states |
|---|---|---|
| DesRefinement.ImplementsStandard | cntlm-0.92.3/xcrypt.c:521-541 | for every key and block the table-driven cipher enciphers and deciphers as the reference of FIPS 46-3 does, tables included |
| DesRefinement.CryptIsCipher | cntlm-0.92.3/xcrypt.c:521-541 | sixteen unswapped rounds between the swap-macro permutations are the Feistel network between IP and its inverse, for any packed subkeys |
| DesRefinement.RoundsAreFeistel | cntlm-0.92.3/xcrypt.c:379-389 | 2n rounds on rotated words are 2n steps of the textbook network |
| DesRefinement.MixIsF | cntlm-0.92.3/xcrypt.c:379-389 | one round's eight lookups, on a word rotated by one bit and two packed subkey words, are the function f of the standard |
| DesRefinement.PermutationsAreIP | cntlm-0.92.3/xcrypt.c:347-370 | the five exchanges and the rotation are IP followed by a rotation of both halves; backwards they are its inverse |
| DesRefinement.KeyHalvesArePC1 | cntlm-0.92.3/xcrypt.c:419-443 | swaps and the two 16-entry tables compute the permuted choice 1 |
| DesRefinement.SubkeysPackPC2 | cntlm-0.92.3/xcrypt.c:445-497 | the masks and shifts pack the permuted choice 2 of the halves into two words |
| DesRefinement.ScheduleIsStandard | cntlm-0.92.3/xcrypt.c:415-498 | words 2n and 2n+1 of the schedule hold round key n+1 of the standard |
| DesRouting.PermutationsInverse | cntlm-0.92.3/xcrypt.c:347-370 | the final permutation undoes the initial one and the other way round, each exchange being its own inverse |
| Des.ReadWriteRoundTrip | cntlm-0.92.3/xcrypt.c:394-402 | reading eight bytes into two words and writing them back are inverse |
| Des.KeySchedule | cntlm-0.92.3/xcrypt.c:415-498 | filling the array in a loop with two rotating halves gives the schedule as a function of the key |
| Des.Context.SetKey | cntlm-0.92.3/xcrypt.c:500-510 | both subkey arrays of the context are those of the key |
| Des.Context.EcbCrypt | cntlm-0.92.3/xcrypt.c:521-541 | eight bytes of the output are the block enciphered or deciphered under the key the context was given; nothing else changes |
| Des.CryptBlock | cntlm-0.92.3/xcrypt.c:521-541 | the sequence of sixteen round macros with exchanged arguments computes the cipher function |
| DesProperties.DecryptInvertsEncrypt | cntlm-0.92.3/xcrypt.c:500-541 | for every S-box contents, key and block, the reordered subkeys undo the encryption |
| DesProperties.CryptReverses | cntlm-0.92.3/xcrypt.c:521-541 | for every 16 pairs of subkey words whatever, using them in reversed order undoes the cipher |
| DesProperties.Complementation | cntlm-0.92.3/xcrypt.c:336-541 | complementing key and block complements the output, for every S-box contents |
| DesProperties.ScheduleComplement | cntlm-0.92.3/xcrypt.c:415-498 | a complemented key gives subkeys that differ by exactly 0x3f3f3f3f |
| DesProperties.ParityIgnored | cntlm-0.92.3/xcrypt.c:415-498 | keys that differ only in the low bit of each byte have the same schedule |
| DesProperties.TableKeysShareSubkeysWhen | cntlm-0.92.3/xcrypt.c:227-303 | which rounds of a key of the weak-key table share their subkey pair, exactly: all for a key marked w, those turned by an even number of places for one marked sw, otherwise those in the same place; so one, two or four different pairs |
| DesProperties.WeakKeysHaveOneSubkeyPair | cntlm-0.92.3/xcrypt.c:239-303 | a key marked w has the same subkey pair in all 16 rounds |
| DesProperties.SemiWeakKeysHaveTwoSubkeyPairs | cntlm-0.92.3/xcrypt.c:239-303 | a key marked sw has the pairs of rounds 0 and 1, which differ, and in every round one of them |
| DesProperties.TableKeysHaveFewSubkeys | cntlm-0.92.3/xcrypt.c:227-303 | every round of a table key has the subkey pair of round 0, 1, 2 or 8 |
| DesProperties.MirroredSchedule | cntlm-0.92.3/xcrypt.c:227-303 | the table entries with digits a b a b and b a b a have schedules in reversed order |
| DesProperties.SemiWeakPairs | cntlm-0.92.3/xcrypt.c:227-303 | a key marked w encrypts twice to the block itself, and a pair marked sw undoes each other; all 16 such entries |
| WeakKeys.IsWeakKey | cntlm-0.92.3/xcrypt.c:306-331 | the binary search answers exactly whether the key, parity bits cleared, is in the table |
| WeakKeys.RowsAscend | cntlm-0.92.3/xcrypt.c:238-303 | the 64 rows are in ascending order, which the search relies on |
| Md4.CompressBlock | cntlm-0.92.3/xcrypt.c:545-632 | the unrolled rounds with their rewritten Boolean functions are the 48 steps of RFC 1320 |
| Md5.CompressBlock | cntlm-0.92.3/xcrypt.c:1105-1273 | the unrolled rounds are the 64 steps of RFC 1321 with their constants and shifts |
| HashContext.Context.ProcessBlock | cntlm-0.92.3/xcrypt.c:1117-1133 | whole blocks are folded into the chaining value and counted |
| HashContext.Context.ProcessBytes | cntlm-0.92.3/xcrypt.c:1039-1101 | after any call, aligned or not, the context has absorbed the old message and the new bytes, all but the waiting ones compressed; the counter has moved on by their number if they are fewer than 2^32, and otherwise as Fed says |
| HashContext.Context.TopUp | cntlm-0.92.3/xcrypt.c:1043-1062 | a partly filled buffer takes what fits into 128 bytes, keeps the rest of a block, and the counter moves on by what was compressed |
| HashContext.Context.Bulk | cntlm-0.92.3/xcrypt.c:1064-1084 | both the aligned path and the copying path compress the same blocks; the copying path counts them right, the other with one carry test |
| HashContext.Context.KeepTail | cntlm-0.92.3/xcrypt.c:1086-1100 | what is left waits, and the buffer never holds more than 64 bytes afterwards |
| HashContext.Context.StoreLength | cntlm-0.92.3/xcrypt.c:678-682 | the shifted words, stored low byte first, are the byte counter times eight in 64 bits |
| WordNumbers.ShiftedWords | cntlm-0.92.3/xcrypt.c:679-681 | the shifts and the or on 32-bit words multiply each by eight and carry the top three bits over |
| HashContext.Context.FinishMd4 | cntlm-0.92.3/xcrypt.c:665-687 | padding, length and last blocks give the digest of everything absorbed with the number of bytes as it was counted, and so the MD4 digest if that is their number |
| HashContext.Context.FinishMd5 | cntlm-0.92.3/xcrypt.c:928-950 | the same for MD5, whose padding the code writes differently |
| HashContext.HashInPieces | cntlm-0.92.3/xcrypt.c:1039-1101 | for every way to split a message into calls and every choice of paths the digest is that of the whole message if no piece has 2^32 bytes or more, and otherwise the one with the count that FedAll tells |
| HashContext.HashBuffer | cntlm-0.92.3/xcrypt.c:1023-1035 | one call gives the digest, with the same proviso |
| HashContext.FedExact | cntlm-0.92.3/xcrypt.c:1039-1101 | a call with fewer than 2^32 bytes, or with unaligned ones, is counted right, and no call is counted too high |
| HashContext.BlocksExactWhen | cntlm-0.92.3/xcrypt.c:1067-1084 | the whole blocks of a call are counted right exactly if they are passed on one by one, are fewer than 2^32 bytes, or make exactly one carry due |
| HashContext.PaddingIsStandardWhen | cntlm-0.92.3/xcrypt.c:665-687 | the padding written is that of the standards exactly if count and length agree modulo 2^61 |
| Digest.TallyExactWhen | cntlm-0.92.3/xcrypt.c:1128-1133 | what the carry test adds is the length exactly if that is below 2^32 or one carry is due, and never more |
| Digest.CounterExactWhen | cntlm-0.92.3/xcrypt.c:1128-1133 | the carry test of the two-word counter is right for lengths below 2^32, and above exactly when one carry is due |
| Digest.CounterLosesACarry | cntlm-0.92.3/xcrypt.c:1128-1133 | the smallest length for which it is wrong |
| Digest.BlockWordIs | cntlm-0.92.3/xcrypt.c:1137-1160 | the words of a block are numbers whose low-order byte stands first |
| Digest.OutputIs | cntlm-0.92.3/xcrypt.c:650-656 | a digest holds the four words in order, the low-order byte of each first |
| Digest.FoldAppends | cntlm-0.92.3/xcrypt.c:1117-1273 | compressing in two goes is compressing the concatenation |
| Hmac.HmacMd5 | cntlm-0.92.3/xcrypt.c:842-889 | the two contexts fed a raw block first compute HMAC as RFC 2104 defines it, for every key and text below 2^32 bytes; above, the same with the lengths as they are counted |
| Hmac.KeyedBlock | cntlm-0.92.3/xcrypt.c:865-869 | memset and memxor give the padded key xored with the pad byte |
| Hmac.Memxor | cntlm-0.92.3/xcrypt.c:832-840 | the front of the destination is xored with the source, the rest stays |
| NtlmKey.SpreadLosesNothing | cntlm-0.92.3/ntlm.c:35-48 | the 56 bits of a 7-byte slice are the non-parity bits of the key made of it |
| NtlmKey.KeyBitsDecideSchedule | cntlm-0.92.3/ntlm.c:35-48 | two keys with the same 56 bits have the same subkeys |
| NtlmKey.NtlmCalcResp | cntlm-0.92.3/ntlm.c:50-65 | the 24 bytes are the challenge under the three thirds of the hash, followed by a zero |
| NtlmKey.ResponseDecrypts | cntlm-0.92.3/ntlm.c:50-65 | under any key with the 56 bits of one third, the matching 8 bytes of the response decipher to the challenge |
| TargetInfo.Scan | cntlm-0.92.3/ntlm.c:313-356 | for challenges up to 65535 bytes the 16-bit walk ends without wrapping and finds the whole records at the given offset, and the end mark behind at least one of them |
| TargetInfo.SliceIsTargetInfo | cntlm-0.92.3/ntlm.c:313-356 | the slice lies inside the challenge, is a sequence of whole AV_PAIRs, and no further record follows it |
| TargetInfo.TargetInfoIsTaken | cntlm-0.92.3/ntlm.c:313-356 | a target info written as section 2.2.2.1 of MS-NLMP says is taken whole, end mark included |
| TargetInfo.PlacedPairsAreFound | cntlm-0.92.3/ntlm.c:315-340 | records placed in front of anything that is no record are exactly those found |
| TargetInfo.AdvancesExactlyUpTo65535 | cntlm-0.92.3/ntlm.c:301-341 | every record moves the position forward exactly for lengths up to 65535; above, and only there, a scan can begin at a record that leads back to itself |
| ByteOrder.LowByteFirst | cntlm-0.92.3/ntlm.c:413-446 | numbers are stored low byte first |
| ByteOrder.GetPut16 | cntlm-0.92.3/ntlm.c:422-423 | a 16-bit number stored low byte first is read back |
| ByteOrder.GetPut32 | cntlm-0.92.3/ntlm.c:424 | a 32-bit number stored low byte first is read back |
| AuthMessage.BuildMessage | cntlm-0.92.3/ntlm.c:413-466 | the buffer holds the fixed part, the names and the responses one after the other, and zeros behind; the length is returned |
| AuthMessage.SentIsTiled | cntlm-0.92.3/ntlm.c:448-466 | with a 24-byte LM field, or no NT field, the five fields tile the message from byte 64 to its end |
| AuthMessage.FieldsAreRead | cntlm-0.92.3/ntlm.c:417-456 | every field is read back through its length and offset, the NT field exactly if there is an LM field (or it is all zeros): the copy uses 24 where the offset uses the LM length |
| AuthMessage.AllMessagesFit | cntlm-0.92.3/ntlm.c:413-456 | with names of at most 98 bytes every message fits the 1024-byte buffer exactly if the target info has at most 594 bytes or is not sent |
| AuthMessage.FaithfulProfiles | cntlm-0.92.3/ntlm.c:362-376 | the NT response is read back, whatever it is, in every profile but the one with an NT response alone |
| AuthMessage.Ntlm2CalcResp | cntlm-0.92.3/ntlm.c:67-124 | both results are a code over the server challenge and the bytes sent behind it; the blob holds time, nonce and the slice of the challenge |
| NtlmResponse.NtlmResponse | cntlm-0.92.3/ntlm.c:298-467 | from challenge to message: no message exactly for an NTLMv2 profile without target info, otherwise the message with the responses of the profile |
| NtlmResponse.CalcResponses | cntlm-0.92.3/ntlm.c:362-376 | later branches overwrite the responses of earlier ones as listed |
| NtlmResponse.SessionResponse | cntlm-0.92.3/ntlm.c:126-150 | client nonce and zeros, and a DES response to the hash of both nonces |
| NtlmResponse.ServerReadsResponses | cntlm-0.92.3/ntlm.c:362-466 | in every profile but NT alone a server reads the responses and the flags it expects |
| NtlmResponse.ServerAccepts | cntlm-0.92.3/ntlm.c:67-124 | a server that knows the NTLMv2 hash recomputes the code from what it reads, and finds its own target info inside |
| NtlmStandard.ChallengeIsRead | cntlm-0.92.3/ntlm.c:448 | of every CHALLENGE message of section 2.2.1.2 of MS-NLMP, written from its fields, the eight bytes of the server and its flags are those that are used |
| NtlmStandard.InfoIsRead | cntlm-0.92.3/ntlm.c:313-351 | and the target info is the one that stands where its field says |
| NtlmStandard.ResponseIsDesl | cntlm-0.92.3/ntlm.c:35-66 | a 24-byte response is DESL of section 6 of MS-NLMP, with DES from FIPS 46-3, under the 16-byte hash |
| NtlmStandard.LmIsStandard | cntlm-0.92.3/ntlm.c:362-376 | for every profile the LM field is what sections 3.3.1 and 3.3.2 of MS-NLMP say, for the eight bytes the server chose |
| NtlmStandard.NtIsStandard | cntlm-0.92.3/ntlm.c:362-376 | the same for the NT field, with its temp for NTLMv2 |
| NtlmStandard.ServerReadsAnswer | cntlm-0.92.3/ntlm.c:298-467 | for every CHALLENGE message and every profile but NT alone, the message sent back reads, by section 2.2.1.3, as an AUTHENTICATE message with the names, the server's flags and the standard's responses |
| NtlmStandard.ServerAccepts | cntlm-0.92.3/ntlm.c:67-124 | the NT response of such a message for NTLMv2 is a code over the bytes the server chose and what follows it, with the server's target info inside |
| Base64.ToBase64 | cntlm-0.92.3/utils.c:862-886 | the text and its terminator at the start of the output, which is never overrun |
| Base64.Encode | cntlm-0.92.3/utils.c:862-886 | text and terminator fit the given size, and the text is whole groups of four |
| Base64.FromBase64 | cntlm-0.92.3/utils.c:890-928 | the decoded bytes and their number, or -1 for a character out of place |
| Base64.ZeroByteEnds | cntlm-0.92.3/utils.c:890-928 | nothing behind a zero byte is decoded |
| Base64.DecodeEncode | cntlm-0.92.3/utils.c:862-928 | decoding what was encoded into any size from 5 on gives a nonempty prefix of the input, and an error below |
| Base64.WholeInputWhen | cntlm-0.92.3/utils.c:862-886 | that prefix is the whole input exactly from 4*(n/3)+7 bytes on, or 5 for one or two bytes |
| Base64.AlphabetIs | cntlm-0.92.3/utils.c:844-860 | the 64 digits are those of section 4 of RFC 4648, in order |
| Base64.EncodeIsStandard | cntlm-0.92.3/utils.c:862-886 | with room for the input the text is the encoding of section 4 of RFC 4648 |
| Acl.MatchesIsPrefix | cntlm-0.92.3/acl.c:107-110 | on a little-endian host the masked comparison of network-order words compares the leading bits in host order, for masks 0 to 32 |
| Acl.MatchesWhen | cntlm-0.92.3/swap.h:34-39 | for two addresses given by their octets, stored in network order on a little-endian host, the test succeeds exactly if the numbers a * 2^24 + b * 2^16 + c * 2^8 + d agree in as many leading bits as the prefix has |
| Acl.BigEndianRightWhen | cntlm-0.92.3/acl.c:107-110 | on a big-endian host the unconditional swap is right only for masks 0 and 32 |
| Acl.AclCheck | cntlm-0.92.3/acl.c:101-116 | the verdict of the first rule whose leading bits, by the octets, are those of the address, and allow if there is none |
| Plist.PlistAdd | cntlm-0.92.3/utils.c:71-88 | appends one node to the linked list and keeps the others |
| Plist.PlistGet | cntlm-0.92.3/utils.c:151-162 | what the first entry with the key holds, if there is one |
| Plist.PlistPop | cntlm-0.92.3/utils.c:178-213 | is what TakeFrom says of the queue: closes the entries before the first open descriptor, hands that one out with its data and keeps the rest in order |
| Plist.ConnectionCache.Take | cntlm-0.92.3/forward.c:357-359 | the pool refines a queue when a connection is taken |
| Plist.ConnectionCache.Store | cntlm-0.92.3/forward.c:702-707 | and when one is stored |
| Plist.TakingKeepsFifo | cntlm-0.92.3/utils.c:178-213 | one taking keeps the order in which connections were stored |
| Plist.EveryRunIsFifo | cntlm-0.92.3/utils.c:71-213 | over every sequence of adding and taking, each stored connection is pooled, handed out once or closed once, first in first out, and handed out with its own credentials |
| Parents.ParentList.Add | cntlm-0.92.3/main.c:168-175 | the new proxy gets the next number, its name cut to 63 characters; all others keep theirs |
| Parents.ParentList.Fetch | cntlm-0.92.3/forward.c:66-68 | every number up to the count finds its proxy |
| Parents.ParentList.Attempt | cntlm-0.92.3/forward.c:69-82 | a name is looked up until it is known, and without an address the result is 0 |
| Parents.OneRound | cntlm-0.92.3/forward.c:84-95 | n successive parents in the circle are all different, are all there are, and lead back to the first |
| Parents.KnownAfterAttempts | cntlm-0.92.3/forward.c:69-77 | in one call a name is looked up at most once, at its own attempt |
| Parents.TryParents | cntlm-0.92.3/forward.c:65-95 | the loop ends at the first attempt that works, or after a full round where it began |
| Parents.ProxyConnect | cntlm-0.92.3/forward.c:52-119 | the first parent in the circle that answers is selected and connected; if none answers the selection is unchanged and the result not positive; cached connections are closed if the selection changed |
| ParentThreads.EveryInterleavingSelectsAParent | cntlm-0.92.3/forward.c:52-95 | for any number of threads and every interleaving a parent is selected at every lock release, every lookup finds one, and no thread tries more than n times |
| ParentThreads.FailuresSelect | cntlm-0.92.3/forward.c:60-95 | in every interleaving the selected parent is told by the number of failures of all threads, modulo n |
| ParentThreads.NextLookupIsAfterWhen | cntlm-0.92.3/forward.c:66-95 | a thread that failed looks up the parent after the one it tried exactly if the failures of the others in between number 0 modulo n |
| ParentThreads.GivesUpAfterAllWhen | cntlm-0.92.3/forward.c:66-98 | a thread that gives up has tried every parent exactly if no two of its lookups came after numbers of failures that are equal modulo n |
| ParentThreads.WorkingParentIsSelectedWhen | cntlm-0.92.3/forward.c:44-95 | when an attempt succeeds the parent that worked is the selected one exactly if the failures of the other threads since it was looked up number 0 modulo n |
| ParentThreads.AloneIsTryParents | cntlm-0.92.3/forward.c:60-95 | the steps of an undisturbed thread select and try the parents that TryParents does |
| ParentThreads.ThreadsCanOvertake | cntlm-0.92.3/forward.c:84-95 | a run of two threads and two parents in which one thread tries the first parent twice, never the second, and gives up |
| Forward.Forwarder.ForwardRequest | cntlm-0.92.3/forward.c:318-714 | whatever proxy and client answer, it ends, and all it has done is a run of the state machine below; a returned request is the last one read and unanswered |
| Forward.Forwarder.Authenticate | cntlm-0.92.3/forward.c:135-286 | on success the reply to the probe is on record with the token made of it, which is exactly what AnswerChallenge says of a 407, and the request carries that token, or the reply was no 407 and the probe was a full substitute for the request |
| Forward.Forwarder.AnswerChallenge | cntlm-0.92.3/forward.c:228-253 | a 407 without a Proxy-Authenticate leaves the request as it is; of the first such header a token is made exactly if it can be answered, it is a token for that challenge, and it is put into the request without changing its body |
| Forward.Forwarder.Conclude | cntlm-0.92.3/forward.c:244-277 | a reply that must not reach the client is marked as a 407; the connection is replaced exactly if the proxy has closed it and the challenge, if any, was understood; failure exactly if a body could not be dropped or the new connection is negative |
| Tokens.MakeToken | cntlm-0.92.3/forward.c:229-249 | from the text behind the scheme to a token: exactly if it is Base64 for more than 24 bytes, with a target info if the profile is NTLMv2; the token is the prefix and Base64 for the message that answers the challenge |
| Tokens.TokenIsRead | cntlm-0.92.3/forward.c:234-237 | a token is the name of the scheme, a blank and text from which the whole message is decoded |
| Tokens.TokenIsAccepted | cntlm-0.92.3/forward.c:229-249 | for an NTLMv2 profile the message in a token has an NT response that a server with the same hash accepts for its challenge, with its target info inside |
| Forward.RequestIsAccepted | cntlm-0.92.3/forward.c:229-249 | so the request sent after a good challenge carries, in its first Proxy-Authorization, a message the proxy accepts, and has the body it had |
| Forward.ProxyIsAnswered | cntlm-0.92.3/forward.c:223-249 | from end to end: of every 407 whose Proxy-Authenticate is NTLM and the Base64 of a CHALLENGE message with a target info, a token is made, the request carries it, and what the proxy decodes from it is the answer to the eight bytes it chose |
| Forward.Forwarder.Exchange | cntlm-0.92.3/forward.c:386-691 | one turn of the loop: another turn, the end, or a new start that has used up a pooled connection or read a request; a request is returned only if it is for another server |
| Forward.Forwarder.Ask | cntlm-0.92.3/forward.c:519-557 | what is sent is the prepared request, with the token if it was probed for; then a reply for the client, a 407 on a cached or unauthenticated connection, or nothing |
| Forward.Forwarder.Deliver | cntlm-0.92.3/forward.c:575-676 | the reply goes to the client once, with its headers finished, marks the connection authenticated as the code does, and decides whether the connection is kept and the client may go on |
| Forward.Forwarder.Open | cntlm-0.92.3/forward.c:336-376 | a pooled connection or a new one, or a page that says there is none |
| Forward.Forwarder.TakeConnection | cntlm-0.92.3/forward.c:357-365 | the pool shrinks if a connection is found |
| Forward.Forwarder.Bailout | cntlm-0.92.3/forward.c:693-714 | either the connection is closed and the pool stays, or it is stored at the end of the pool, and then proxy and connection were alive, it counted as authenticated, and NTLM-to-Basic was off |
| Rewriting.PreparedRequest | cntlm-0.92.3/forward.c:492-511 | no Proxy-Authorization of the client reaches the proxy, and keep-alive is asked for |
| Rewriting.GetPrepared | cntlm-0.92.3/forward.c:495-511 | every other header of the request reads as before, or as the last configured change of its name says if it was there |
| Rewriting.ClientIsToldToClose | cntlm-0.92.3/forward.c:602-605 | the client reads Connection: close exactly if the reply does not speak of keep-alive, and otherwise what the proxy said; other headers but the offer to authenticate read as before |
| Rewriting.ClientIsAskedForBasic | cntlm-0.92.3/forward.c:603-620 | the client sees a Proxy-Authenticate header exactly in a 407, once, and for the Basic scheme |
| Rewriting.ProbeIsRequest | cntlm-0.92.3/forward.c:147-187 | the probe is the request, a HEAD made a GET, with the first token and three headers changed, and no other |
| Rewriting.ProbeHasNoBody | cntlm-0.92.3/forward.c:151-187 | the probe is never a HEAD, and by the first header of each name has no body |
| Rewriting.ProbeAnnouncesNoBodyWhen | cntlm-0.92.3/forward.c:186-187 | to a reader of all headers the probe announces no body exactly if the request has at most one Transfer-Encoding and every Content-Length but the first is 0 |
| Rewriting.PreparedIsSettled | cntlm-0.92.3/forward.c:492-511 | preparing a request again after a retry does not change which body it has |
| Rewriting.TokenKeepsBody | cntlm-0.92.3/forward.c:237 | adding the token does not change the body a request has |
| ForwardRuns.RetriesAreBounded | cntlm-0.92.3/forward.c:564-582 | a request is started over at most as often as there were pooled connections at the call, a later one at most once if there were none |
| ForwardRuns.HandshakeNeverRetries | cntlm-0.92.3/forward.c:519-582 | a request is started over only after a 407, and a fresh connection is given up only for a later request than the one it was opened for |
| ForwardRuns.OneAnswerEach | cntlm-0.92.3/forward.c:386-691 | in every run each request read from the client but the last is answered exactly once, the last at most once |
| ForwardRuns.OneServerOnly | cntlm-0.92.3/forward.c:382-456 | in every run all requests that go to the proxy are for the server of the first |
| ForwardRuns.CloseIsMeant | cntlm-0.92.3/forward.c:602-691 | in every run the client is told close exactly if the proxy's reply has no keep-alive, and then nothing follows but storing or closing the connection |
| ForwardRuns.GoesOnWhen | cntlm-0.92.3/forward.c:647-691 | after an answer a connection is stored only if the proxy keeps it, and another request read only if the reply speaks of keep-alive besides; neither after a CONNECT that succeeded |
| ForwardRuns.ClientGetsRealReplies | cntlm-0.92.3/forward.c:155-187 | the reply to a probe reaches the client only if it is that very reply, the request has no body and is no HEAD; a 407 only over a connection opened for it |
| ForwardRuns.DescriptorsAreConserved | cntlm-0.92.3/forward.c:336-711 | each descriptor from the pool or from connecting is pooled, in use or closed, exactly as often as it was obtained |
| ForwardRuns.PoolIsEmptyWhenConnecting | cntlm-0.92.3/forward.c:102-113 | as far as one call is concerned, proxy_connect is called only with an empty pool, so the list head it leaves behind after freeing is never used |
| PoolThreads.FoundIsAuthenticatedWhen | cntlm-0.92.3/forward.c:357-376 | among any number of threads that call forward_request any number of times, a connection found in the pool has been authenticated exactly if the request by which it came to count as such got a token, made of the challenge in a real 407 |
| PoolThreads.PoolIsAuthenticated | cntlm-0.92.3/forward.c:702-708 | if every probe led to a token, every connection in the pool has been authenticated, in every interleaving |
| PoolThreads.HeadDanglesWhen | cntlm-0.92.3/forward.c:102-113 | in every interleaving of searches, stores and calls of proxy_connect, from forward_request or elsewhere, the head of the list comes to point to freed entries exactly if a thread returns having seen another parent selected than when it entered, while more connections have been stored than taken out |
| PoolThreads.NoStoreNoDangling | cntlm-0.92.3/forward.c:357-376 | it does not if no thread stores a connection between the search of another and its return from proxy_connect |
| PoolThreads.CallsInTurnAreSafe | cntlm-0.92.3/forward.c:318-714 | so one thread that calls forward_request again and again never leaves it so |
| PoolThreads.TunnelLeavesHeadDangling | cntlm-0.92.3/forward.c:797-805 | a run that does: a tunneling thread calls proxy_connect before any parent is selected, and returns after another thread has stored a connection |
| PoolThreads.OneCallIsForwardRun | cntlm-0.92.3/forward.c:318-714 | one call on its own, with an empty pool, does what it does in ForwardRuns |
| ForwardRuns.StoredAfterUse | cntlm-0.92.3/forward.c:519-592 | a connection goes into the pool only after it came out of it or after some request on it was answered |
| ForwardRuns.StoredAuthenticatedWhen | cntlm-0.92.3/forward.c:519-592 | in every run, a stored connection that did not come from the pool has had a request with a token answered by something else than a 407 exactly if the request that made it count as authenticated had its probe answered by a real 407 with a challenge and a token made of it |
| ForwardRuns.StoredWithoutAuthentication | cntlm-0.92.3/forward.c:540-592 | a run that stores a connection after an error reply to the probe |
| ForwardRuns.StoredWithoutChallenge | cntlm-0.92.3/forward.c:246-263 | a run that stores one after a HEAD, or a request with a body, to a proxy that wants no authentication |
| ForwardRuns.BodyIsTakenOnceUnlessRetried | cntlm-0.92.3/forward.c:655-663 | a request is sent in full once more than it was started over, and its body is asked from the client again exactly if it has one and was started over |
| ForwardRuns.BodyIsTakenTwice | cntlm-0.92.3/forward.c:564-582 | such a run: a request with a body on a pooled connection that answers 407 |
| ForwardRuns.SendsGoToDescriptors | cntlm-0.92.3/forward.c:267-278 | what goes to the proxy goes to the connection obtained last, which is a positive descriptor exactly unless it was a reconnection that gave 0 |
| ForwardRuns.ProbeReplyIsWholeWhen | cntlm-0.92.3/forward.c:268-277 | when the reply to a probe goes to the client, its head came over the connection from which its body will be read exactly if the connection was not replaced since |
| ForwardRuns.BodyFromAnotherConnection | cntlm-0.92.3/forward.c:268-277 | a run in which it was |
| ForwardRuns.ReconnectingToZero | cntlm-0.92.3/forward.c:270-277 | such a run: the result 0 of proxy_connect passes for success |
| ForwardRuns.BudgetIsKept | cntlm-0.92.3/forward.c:336-582 | the measure behind the bound: retries, pooled connections, and one for a connection that may be given up |
| Headers.WithoutDel | cntlm-0.92.3/utils.c:299-324 | deleting the first header of a name does not change what is left without that name |
| Headers.DeleteAll | cntlm-0.92.3/forward.c:508-511 | the loop removes all headers of the name and leaves the others in order |
| Headers.WithoutHasNone | cntlm-0.92.3/forward.c:508-511 | none of that name is left, and other names read as before |
| Headers.GetMod | cntlm-0.92.3/utils.c:333-350 | the name has the new value if it was there or is added, and other names are untouched |
| Headers.GetDel | cntlm-0.92.3/utils.c:299-324 | deleting a header leaves other names alone |
| Headers.ValuesMod | cntlm-0.92.3/utils.c:333-350 | only the first of several headers of a name is changed |
| Headers.ValuesDel | cntlm-0.92.3/utils.c:299-324 | only the first of several headers of a name is deleted |
| Messages.DropsTheBodyUnless | cntlm-0.92.3/forward.c:255-262 | the body dropped after marking a probe reply as 407 is the reply's own, exactly unless the reply has no body although its headers announce one |
| Names.SameNameWhen | cntlm-0.92.3/utils.c:355-395 | two names are the same exactly if they agree letter by letter, up to the case of the 26 letters |
| Names.MentionsWhen | cntlm-0.92.3/utils.c:401-417 | a text is found exactly if it stands somewhere in the value of the first header of that name, whatever the case |
| Names.GetWhen | cntlm-0.92.3/utils.c:385-395 | a header reads as the value of the first of that name |
| BodyRules.ReplyBodyIs | cntlm-0.92.3/http.c:471-524 | from the headers as they are written: n for the decimal digits of n, chunks, until the end with a type or close, none without; none to a HEAD, with 1xx, 204 and 304 |
| BodyRules.RequestBodyIs | cntlm-0.92.3/http.c:471-524 | the same for requests: none for GET and HEAD, and never until the end |
| BodyRules.ZeroHidesChunks | cntlm-0.92.3/http.c:507-518 | a Content-Length of 0 hides chunks |
| Decimals.DecimalIsRead | cntlm-0.92.3/http.c:518 | atoll reads what is written in decimal digits |
| Sockets.RecvLine | cntlm-0.92.3/socket.c:252-282 | one line with its line feed, in a buffer that grows as needed, and nothing behind it read, for every pattern of reads |
| Chunks.DataSend | cntlm-0.92.3/http.c:316-362 | exactly the given number of bytes, or all up to the end, is forwarded, for every pattern of reads; failure exactly if fewer come |
| Chunks.ChunkedDataSend | cntlm-0.92.3/http.c:368-419 | forwarding, success and what is left unread are those of the function Chunked |
| Chunks.OneChunk | cntlm-0.92.3/http.c:377-408 | one turn of the loop: error, last chunk, or one chunk forwarded |
| Chunks.TrailerSend | cntlm-0.92.3/http.c:411-415 | the lines up to an empty one are forwarded |
| ChunkedBodies.BodyIsSent | cntlm-0.92.3/http.c:368-419 | every well-formed chunked body (section 4.1 of RFC 7230), followed by anything, is written as it is, with success, and what follows is left unread |
| ChunkedBodies.SizeIsReadAs | cntlm-0.92.3/http.c:388-394 | strtol and the assignment to an int read the size in front of an extension or the line end, for every number of digits |
| ChunkedBodies.SizeIsRead | cntlm-0.92.3/http.c:388-394 | a size that an int can hold is read as it is |
| ChunkedBodies.HexDigitIs | cntlm-0.92.3/http.c:388 | the hexadecimal digits, their values, and no others |
| ChunkedBodies.HexIsSize | cntlm-0.92.3/http.c:388 | a number written in hexadecimal digits is that size |
| ChunkedBodies.StrtolReads | cntlm-0.92.3/http.c:388 | white space, a sign, a prefix and digits are read as the number, as far as a long can hold it |
| ChunkedBodies.SizeNeedsItsEnd | cntlm-0.92.3/http.c:388-395 | a line is a size exactly if white space or a semicolon follows the number |
| ChunkedBodies.BadSizeIsRefused | cntlm-0.92.3/http.c:390-395 | a line that is none ends the transfer without success |
| ChunkedBodies.ChunkPassesWhen | cntlm-0.92.3/http.c:377-408 | a chunk is forwarded whole, whatever its bytes and what follows, exactly up to 2^31 - 3 bytes |
| Chunks.UndefinedWhen | cntlm-0.92.3/http.c:377-408 | what chunked_data_send does is undefined exactly if, chunk after chunk, it comes to a size below -3 or within two of the largest int |
| HeaderTransfer.HeadersRecv | cntlm-0.92.3/http.c:85-239 | the message that the function Received makes of the input, or an error; nothing behind the head is read |
| HeaderTransfer.HeaderLines | cntlm-0.92.3/http.c:183-189 | the loop over the header lines |
| HeaderTransfer.HeadersSend | cntlm-0.92.3/http.c:245-309 | success is reported exactly if the whole text was written; otherwise a beginning of it was, and on an open connection that does not happen |
| HeaderTransfer.Print | cntlm-0.92.3/http.c:268-287 | every sprintf stays inside the buffer and together they give the text |
| HeaderTransfer.TextFits | cntlm-0.92.3/http.c:250-263 | the size computed beforehand covers text and terminator for every message and every int as code |
| HeaderText.TrimmedIs | cntlm-0.92.3/utils.c:632-640 | of every text exactly the white space at its end goes: blanks, tabs, line feeds, vertical tabs, form feeds, carriage returns |
| HeaderText.Trimr | cntlm-0.92.3/utils.c:632-640 | no white space is left at the end |
| HeaderRoundTrip.ReplyComesBack | cntlm-0.92.3/http.c:85-309 | every well-formed reply that is printed and then read, whatever follows, gives the same version, code, message and headers, and leaves what follows unread |
| HeaderRoundTrip.RequestComesBack | cntlm-0.92.3/http.c:85-309 | the same for requests, with a Host header appended if there was none, and host name and port of the URL |
| HeaderRoundTrip.HostIsThere | cntlm-0.92.3/http.c:191-205 | the first Host header is the request's own, or names the host of the URL |
| Urls.PortOfScheme | cntlm-0.92.3/http.c:159-218 | of every URL without a port the host is what stands between the scheme and the path, and the port is 80 for http and 443 for https |
| Urls.PortIsWritten | cntlm-0.92.3/http.c:159-223 | a port that is written is the port, and 0 is an error |
| Urls.TargetOfConnect | cntlm-0.92.3/http.c:159-223 | the target of a CONNECT has both |
| Urls.NamelessIsRefused | cntlm-0.92.3/http.c:191-223 | a URL with a port or nothing where the host should stand is an error |
| Urls.HostIsBeforePathWhen | cntlm-0.92.3/http.c:159-171 | the host is what stands before the path exactly if anything does or there is no path, as substr takes a length of 0 for everything |
| Urls.PathIsTakenForHost | cntlm-0.92.3/http.c:159-223 | with nothing before the path, the path is taken for the host, where the code means to refuse the request |
| Urls.HostIsUnderstood | cntlm-0.92.3/http.c:85-239 | a request for any of these, printed and read, has the host and port that were meant, and a Host header |
| FirstLines.VersionWhen | cntlm-0.92.3/http.c:105-106 | the first word is that of a status line exactly if it begins with HTTP/ or ICY, whatever the case |
| FirstLines.StatusLineWhen | cntlm-0.92.3/http.c:104-127 | a status line is one exactly if its second word has three characters and is a number other than 0 |
| FirstLines.RequestLineWhen | cntlm-0.92.3/http.c:128-157 | a request line is one exactly if it has three words, of which the second or third begins with HTTP/ |
| FirstLines.OtherLinesAreRefused | cntlm-0.92.3/http.c:174-179 | what begins with a line that is neither is refused |
| HeaderRoundTrip.HeadersComeBackWhen | cntlm-0.92.3/http.c:54-190 | for all header lists: printed, sent and read, they come back as they were, with what follows left unread, exactly if each has a nonempty name without colon, a value that neither begins with a blank nor ends with white space, and neither a line feed nor a zero byte in either |
| HeaderRoundTrip.HeaderComesBackWhen | cntlm-0.92.3/http.c:54-190 | the same for one header |
| HeaderRoundTrip.LineFeedSplitsHeader | cntlm-0.92.3/main.c:808-814 | a value with a line feed, which an option may give, comes back from its line but not over a connection |
| Bodies.SendBody | cntlm-0.92.3/http.c:529-584 | chunked or counted, as the headers say |
| Bodies.HttpBodySend | cntlm-0.92.3/http.c:529-567 | the body of a request, or of its reply if there is one, is forwarded |
| Bodies.HttpBodyDrop | cntlm-0.92.3/http.c:573-591 | the body of a reply is read and thrown away |
| Bodies.BodyIsUndefinedWhen | cntlm-0.92.3/http.c:529-591 | the three methods above leave out exactly a Content-Length below -1 and the chunk sizes of Chunks.UndefinedWhen |
| Bodies.ReplyIsFramed | cntlm-0.92.3/http.c:529-567 | what is taken and forwarded of a reply is what its headers say by themselves: so many bytes, chunks, all up to the end, or nothing |
| Bodies.RequestIsFramed | cntlm-0.92.3/http.c:529-567 | the same for a request |
| Bodies.RepliesStayInStep | cntlm-0.92.3/http.c:85-567 | after the head of a reply is read and its body, as its headers say by themselves, forwarded, the next reply on the connection begins exactly where it was written |
| Bodies.RequestsStayInStep | cntlm-0.92.3/http.c:85-567 | the same for requests read from the client, a Host header added or not |

## Left out

- Sockets.Socket.Write: takes everything it is given or the connection is lost; the code does not handle a partial write either.
- Chunks.ChunkedDataSend: excludes chunk sizes below -3 or within two of the largest int, for which the code's behaviour is undefined (exactly when, is Chunks.UndefinedWhen); the counter of data_send is an unbounded integer.
- Chunks.DataSend: excludes lengths below -1, for which the code reads with a negative size.
- Chunks.OneChunk: excludes the same chunk sizes as Chunks.ChunkedDataSend.
- Bodies.HttpBodySend: excludes what Bodies.SendBody does.
- Bodies.HttpBodyDrop: excludes what Bodies.SendBody does.
- ChunkedBodies.BodyIsSent: chunks of at most 2^31 - 3 bytes; ChunkedBodies.ChunkPassesWhen says that this is the exact bound.
- Bodies.SendBody: excludes a Content-Length below -1, for which the code reads with a negative size, and what Chunks.ChunkedDataSend does; Bodies.BodyIsUndefinedWhen says so exactly.
- TargetInfo.Scan: challenges of at most 65535 bytes, because longer ones may not end; TargetInfo.AdvancesExactlyUpTo65535 is the exact bound.
- Acl.AclCheck: masks are 0 to 32, which is all that acl_add stores; reading the rules from text is not part of the model.
- NtlmResponse.NtlmResponse: asks for challenges of 25 to 65535 bytes, as forward.c passes and TargetInfo.Scan ends on, and for target info of at most 594 bytes in the profiles that send it, because the code writes past its buffer otherwise (AuthMessage.AllMessagesFit).
- HeaderTransfer.HeadersRecv: rel_url, and what an error leaves behind in the record, are left out; nothing here uses them.
- HeaderTransfer.HeadersSend: strings have no zero byte inside, as in C.
- ForwardRuns.PoolIsEmptyWhenConnecting: holds while one thread at a time uses the pool; PoolThreads is about several.
- Parents.ProxyConnect: the freed nodes stay in the list as they are; when something looks at them is told by PoolThreads.HeadDanglesWhen. Copying the credentials to the caller is left out.
- Forward.Forwarder.ForwardRequest: one thread at a time uses the pool; replies are arbitrary messages rather than bytes, proxy_connect is an arbitrary integer, the credentials stored with a connection are arbitrary, and the scanner plugin is switched off.
- NtlmStandard.ServerReadsAnswer: leaves out the profile with an NT response alone, which AuthMessage.FaithfulProfiles shows to be lost, and target info that does not fit (AuthMessage.AllMessagesFit).
- Forward.ProxyIsAnswered: asks for the same, for at most 65535 bytes, and for `NTLM ` in front of the first Proxy-Authenticate, as the code counts five characters.
- Tokens.MakeToken: asks for what NtlmResponse.NtlmResponse does (Tokens.Manageable).
- Forward.Forwarder.AnswerChallenge: says nothing of a challenge that is not manageable in that sense; a header value of less than five characters is read beyond its end, so what stands there is a parameter.
- Forward.Forwarder.Authenticate: the same as its part AnswerChallenge; the first token, in the probe, is arbitrary.
- PoolThreads.HeadDanglesWhen: which parents are selected is arbitrary here (ParentThreads tells), and what the code does once it looks at freed entries is not modelled.
- Header lists are sequences: hlist_add, hlist_mod and hlist_del change the list in place in C, but no two names share one.
- Failing allocation, and overflow of `int` counters by lengths of 2^31 and more.
- atoll and atoi beyond their range.
- gl_des_makekey, md4_stream and md5_stream: thin wrappers.
- The hashing of passwords (ntlm_hash_lm_password and the like), upper case and UTF-16 of names: they only prepare inputs.
- ntlm_request, printmem and scanmem, urlencode, plist_del, config files, pages, the SOCKS and tunnel threads but for their calls of proxy_connect, direct.c, scanner.c, main: they would add only easier members, or input and output.
- The Java server and client, the SQL and the Dart user interface: their work happens in libraries that are not part of the repository.
