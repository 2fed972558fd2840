# A verified model of pqchat

This project models the protocol core of pqchat, a small post-quantum messenger library written in Go, and proves properties of
the model with Dafny 4.11. `dafny verify dfyconfig.toml` checks all of it.

| part of the library | modules | what is proved about it |
|---|---|---|
| Double Ratchet with ML-KEM injection (`crypto/ratchet`) | `Symbolic`, `RatchetHeader`, `Ratchet`, `Conversation`, `Agreement`, `Runs`, `KeyErasure`, `Hazards`, `Forgeries` | over every run of two parties and a network that loses and reorders: exactly when a letter decrypts, that epochs alternate and injections follow their schedule and stay in step, that altered letters do not open, that no key seals twice, exactly which secrets it takes to recompute a used key or, after an intrusion, a later one, and what is lost when the transport misbehaves |
| padded Merkle tree (`crypto/merkle`) | `Merkle` | the code computes the tree it should; completeness for every size; soundness, root binding and the separation of domains by extracting a collision |
| prekeys, identities, hybrid KEM (`crypto/prekey`, `crypto/identity`, `crypto/kemhybrid`) | `Prekey`, `Identity`, `KemHybrid`, `KeyChecks`, `SignedMessages` | every bundle verifies; a bundle binds index and key under a signed root; both ends derive one key exactly when they agree on key and transcript |
| transparency log and gossip (`translog`) | `TransLog`, `Witness` | heads commit to prefixes; accepted entries never change; split views are detected; honest logs are never accused, and exactly when relabelled heads can frame one |
| session establishment and wire format (`crypto/session`) | `Wire`, `Session` | codecs as bijections; transcripts are injective and of disjoint kinds; end-to-end establishment, and who can answer a message |
| relay (`relay`) | `Directory`, `Mailbox`, `Relay` | the circular prekey scan is a counter; queues conserve messages |
| all of it together (`relay/e2e_test.go`) | `Channel` | ratchet, wire format and relay are a reliable first-in-first-out channel as long as nothing expires |
| formats | `Formats` | worked examples of every encoding, byte by byte |

## How the model is built

**State.** What the library updates in place is a class here (`Ratchet.State`, `TransLog.Server`, `Witness.ClientView`,
`Relay.Server`, `Relay.UserPrekeys`), and what it computes with loops over slices is a method with a loop. Every such method is
proved to take the object's value to the value that a specification function gives: `DecryptMessage`, for instance, ensures
`(View(), r) == Decrypt(old(View()), pkt, ad)`. The theorems about runs are about those functions.

**Cryptography.** In the ratchet and the handshake, secrets are terms. A private key is named by its public key; a
Diffie-Hellman secret is the unordered pair of both ends' public keys; an ML-KEM secret is determined by a public key and a
ciphertext; every key-derivation call is a free constructor; a sealed box opens under its own key and associated data. The
handshake's salt, SHA-256 of the transcript, is the transcript itself. Which keys of the right length are refused is modelled
too: `LowOrder` is the X25519 keys whose exchanges yield the all-zero secret (section 6.1 of RFC 7748), on which `ecdh` returns
an error, and `Normalised` is the modulus check of section 7.2 of FIPS 203. The ML-KEM library panics on a ciphertext of the
wrong size; that is one more error here, `LibraryPanics`. In the Merkle tree the hash is an arbitrary function, and nothing is
assumed about it: where security needs collision resistance, the lemma names a pair of inputs, computed from the data that would
contradict the claim, and proves it a collision. A hybrid signature is valid when both components are.

**The conversation.** `Conversation.Sys` is two parties and a log of every chain ever started with every letter sealed on it. A
step is a call of `EncryptMessage` by either side or the delivery of any letter ever sent. The clock half of `injectionDue`, all
random draws, and the injection thresholds are parameters, so every theorem holds for all of them. What the theorems ask of the
world is in `MaySend` and `MayDeliver`: new ratchet keys are distinct from earlier ones and, like all generated keys, not
refused by anyone; counters do not reach 2^32; the responder does not send before it has received (`chainSend` is nil until
then); no letter is delivered again once it was decrypted; and on a chain whose first header carries an ML-KEM ciphertext
nothing overtakes that first letter. The last two are not conveniences. `DecryptsExactly` shows that they, with the skip window,
are exactly what a letter needs in order to open, and `Hazards` shows what is lost without them.

**Where the code and its documentation differ.** `ErrDuplicateOrTooOld` is declared in `crypto/ratchet/ratchet.go:40` but never
returned. A repeated letter of the chain the receiver is on is answered with an AEAD failure after the chain has been stepped
(`RepeatingLosesNext`). One of an older chain makes the receiver ratchet back to that chain's key and move to a root key that
nobody shares, unless the header is refused before that, with ErrSkipTooLarge or ErrUnexpectedKEMCT (`RepeatingOldChain`). The
gossip test's comment (`translog/equivocation_test.go:179-183`) expects a ring to detect a split within population/2 rounds; one
round is enough (`OneRingRoundSuffices`). `nextPowerOfTwo` does not return for sizes above 2^62 (`DoublingStopsExactly`).
`translog/witness.go:17-22` calls evidence proof of equivocation that needs no trust in whoever surfaced it. But the bytes that
are signed keep only the low 32 bits of the size (`translog/sth.go:24-30`), so a peer can change a signed head's size by a
multiple of 2^32, and an honest operator that has published two sizes that agree in those bits can be framed (`FramedExactly`).
Below 2^32 registrations it cannot (`SmallLogNeverWraps`, `HonestLogNeverFramed`).

## Model

| member | source | states |
|---|---|---|
| Ratchet.State.InitAlice | crypto/ratchet/ratchet.go:102-121 | the initiator starts one root step ahead of the session key, able to send; it fails exactly for a peer key that ECDH refuses |
| Ratchet.State.constructor | crypto/ratchet/ratchet.go:87-95 | a new state has its root key and key pair, and nothing else |
| Ratchet.State.InitBob | crypto/ratchet/ratchet.go:126-131 | the responder starts at the session key, with no chain in either direction |
| Ratchet.State.PrepareSendingChain | crypto/ratchet/ratchet.go:140-193 | refines `TryPrepare`: a party that owes a chain starts one, answers a pending advertisement once, and advertises when due; any other party reuses its chain without KEM material; it fails, with a new key pair drawn, exactly when ECDH refuses the peer's key |
| Ratchet.State.AnswerAdvertisement | crypto/ratchet/ratchet.go:155-163 | the encapsulation is to the advertised key, and the advertisement is forgotten |
| Ratchet.State.RekeySending | crypto/ratchet/ratchet.go:165-173 | the old count becomes `pn`, and root and sending chain come from one derivation |
| Ratchet.State.AdvertiseIfDue | crypto/ratchet/ratchet.go:175-188 | a key is advertised, remembered and the counter reset exactly when the count or the clock says so |
| Ratchet.State.EncryptMessage | crypto/ratchet/ratchet.go:199-215 | refines `TryEncrypt`: the letter is sealed under the key at the sender's position, with the header bound, and the chain moves on; or the error of the preparation is returned |
| Ratchet.State.ChainStepSend | crypto/ratchet/kdf.go:15-19 | the message key and the next chain key both come from the chain key it replaces |
| Ratchet.State.ChainStepRecv | crypto/ratchet/kdf.go:15-19 | the same for the receiving chain |
| Ratchet.State.SkipMessageKeys | crypto/ratchet/ratchet.go:298-315 | refines `SkipTo`: the loop files exactly the keys of the positions passed, or refuses and changes nothing |
| Ratchet.StoredAt | crypto/ratchet/ratchet.go:309-313 | after skipping, a position is filed if and only if it was passed, with the key of that position |
| Ratchet.State.AdoptChain | crypto/ratchet/ratchet.go:272-281 | root and receiving chain come from one derivation with the peer's new key |
| Ratchet.State.DhRatchetStep | crypto/ratchet/ratchet.go:253-293 | refines `DhStep`, with each error, ECDH's and Unpack's and the panic on a ciphertext of the wrong size included, and what it leaves changed |
| Ratchet.State.TakeSkippedKey | crypto/ratchet/ratchet.go:317-324 | a filed key is returned and erased; nothing else changes |
| Ratchet.State.DecryptMessage | crypto/ratchet/ratchet.go:220-246 | refines `Decrypt`: stored key first, then catch up, then step the chain even when the box does not open |
| Conversation.StartInv | crypto/ratchet/ratchet.go:97-131 | a fresh session is in the invariant |
| Agreement.SkipKeeps | crypto/ratchet/ratchet.go:298-315 | storing keys keeps the receiver in step with the sender's log |
| Agreement.DhStepKeepsParty | crypto/ratchet/ratchet.go:253-293 | adopting the peer's next chain never fails, gives the sender's own root and chain, and hands over exactly the header's advertisement |
| Agreement.DeliverAhead | crypto/ratchet/ratchet.go:238-245 | a letter ahead on the current chain opens, or the skip is refused and nothing changes |
| Agreement.DeliverStored | crypto/ratchet/ratchet.go:221-223 | a letter passed over earlier opens with its stored key |
| Agreement.DeliverNew | crypto/ratchet/ratchet.go:227-245 | a letter on the peer's next chain opens, or asks for too large a skip before or after the ratchet step; both leave the parties in step |
| Agreement.DeliverKeeps | crypto/ratchet/ratchet.go:220-246 | any admissible delivery keeps the invariant and returns the plaintext, or SkipTooLarge exactly outside the window |
| Agreement.SendSame | crypto/ratchet/ratchet.go:199-215 | another letter on the same chain keeps the log and the sender's side |
| Agreement.PeerStartsChain | crypto/ratchet/ratchet.go:143-189 | starting an owed chain swaps the roles of the parties and keeps the invariant |
| Agreement.SendKeeps | crypto/ratchet/ratchet.go:199-215 | every admissible send keeps the invariant |
| Runs.RunKeeps | crypto/ratchet/ratchet.go:7-15 | the invariant holds along every admissible run |
| Runs.DuplicateFails | crypto/ratchet/ratchet.go:221-246 | a letter that was decrypted before never opens again |
| Runs.HeadMissingFails | crypto/ratchet/ratchet.go:227-245 | on a chain that answers an advertisement, no later letter opens before the first |
| Runs.DecryptsExactly | crypto/ratchet/ratchet.go:217-246 | whole-run agreement: in every reachable state a letter that was sent returns its plaintext if and only if it is new, does not overtake the head of an answering chain, and is within the skip window |
| Runs.EarliestOpens | crypto/ratchet/ratchet.go:9-10 | in every reachable state the letter that was sealed first, of those on their way to a party, opens: in-order delivery never fails |
| Runs.AgreementOrSkip | crypto/ratchet/ratchet.go:220-246 | an admissible delivery can fail with ErrSkipTooLarge only, never with ErrUnexpectedKEMCT or an AEAD error, and either way the run goes on from a reachable state |
| Runs.SendsSucceed | crypto/ratchet/ratchet.go:199-215 | EncryptMessage never fails in a reachable state, whatever is drawn |
| Runs.EpochsAlternate | crypto/ratchet/ratchet.go:143-173 | chains are started strictly alternately, both sides never owe one, and root keys are equal if and only if a side owes one, else one step apart |
| Runs.InjectionLockstep | crypto/ratchet/ratchet.go:155-188 | an advertisement to be answered is the peer's pending key, and while a ciphertext is undecrypted its addressee still holds the key it was made for |
| Runs.PendingKemExactly | crypto/ratchet/ratchet.go:259-268 | in every reachable state a party holds the private half of exactly one ML-KEM key, the last it advertised, from then until the answer to it was opened, and of none otherwise |
| Runs.AdvertisesOnSchedule | crypto/ratchet/ratchet.go:133-188 | in every reachable state a letter carries a new ML-KEM key if and only if it starts a chain and the clock says so or the letters its sender has sealed since its last advertising one, that one included, number at least the threshold |
| Runs.ThresholdsKept | crypto/ratchet/ratchet.go:133-135 | no run changes a threshold |
| KeyErasure.DerivableIffAncestorKnown | crypto/ratchet/kdf.go:15-46 | with given leaked secrets, a key is computable by HMAC, rootKDF and the handshake's combiner if and only if a key that leads to it is known, or is a session key whose two handshake secrets leaked |
| KeyErasure.NoKeyIsUsedTwice | crypto/ratchet/aead.go:7-10 | in every run no two letters of either party are sealed under one key, as the all-zero nonce requires |
| KeyErasure.UsedKeysAreErased | crypto/ratchet/ratchet.go:206-243 | once a letter is sealed its sender, and once it is opened its receiver, holds nothing that helps to compute its key: for any leaked secrets, the key is computable if and only if the handshake's DH and ML-KEM secrets (of a session key that came from the handshake) and those of every epoch up to the letter's own have all leaked |
| KeyErasure.SpentKeyForgotten | crypto/ratchet/ratchet.go:259-268 | once an answer was opened, its addressee holds no ML-KEM private key but of a key advertised on a later chain |
| KeyErasure.InjectionErased | crypto/ratchet/ratchet.go:259-268 | so a letter of that chain stays out of reach of whoever reads all that the addressee then holds, its ML-KEM private key included, even with every DH secret, unless the same ML-KEM key was advertised again |
| KeyErasure.HealsExactly | crypto/ratchet/ratchet.go:1-5 | recovery: whoever has read all that a party held at some point of a run, when it was at root k, can compute the key of a letter of a later epoch if and only if the secrets of every epoch from k + 1 to the letter's have leaked; one ML-KEM injection among them that stays secret protects that letter and all later ones, whatever DH secrets leak |
| KeyErasure.HealsFromBoth | crypto/ratchet/ratchet.go:1-5 | the same for whoever has read all that both parties held, counting from the newest epoch at that point |
| KeyErasure.OpensUnkeyedExactly | crypto/ratchet/ratchet.go:220-246 | a reachable party opens a box under a key that needs no secret, whatever the packet, if and only if its receiving chain is nil, the header names the key it was given for its peer, and the box is sealed under the nil chain's first key; only an initiator before its first receipt is in that position |
| KeyErasure.SealsUnkeyedExactly | crypto/ratchet/ratchet.go:126-131 | a reachable party seals under a key that needs no secret if and only if it does not know a peer key yet, which only a responder before its first receipt does not |
| Symbolic.IterInjective | crypto/ratchet/kdf.go:11-19 | chains from rootKDF meet only at the same position of the same chain |
| Hazards.OvertakingLosesHead | crypto/ratchet/ratchet.go:227-245 | delivering a later letter of an answering chain before its head fails and makes the head fail too |
| Hazards.OvertakingHappens | crypto/ratchet/ratchet.go:143-189 | a run exists, for all keys, in which the head would have opened and overtaking it loses it: the head-first condition is needed |
| Hazards.OvertakingLosesChain | crypto/ratchet/ratchet.go:227-245 | more than that: afterwards no letter of that chain opens, sent before or after, whatever else of the chain the receiver takes and whatever it sends in between; so a purge of the head costs the chain |
| Hazards.LostHeadIsFinal | crypto/ratchet/ratchet.go:143-189 | at any point of a run at which the head of an answering chain has not been decrypted, no letter of the chain has been, the chain is the newest, and its addressee does not owe one: a run in which the head never arrives gets no further |
| Hazards.RepeatingLosesNext | crypto/ratchet/ratchet.go:302-304 | repeating a letter on the current chain fails, and the next letter, whether sent already or only afterwards, is lost: it would have opened before and does not after |
| Hazards.LettersSealed | crypto/ratchet/ratchet.go:199-215 | every letter sent is what `SealedAt` says for its position, so the results above apply to it |
| Hazards.NextSealed | crypto/ratchet/ratchet.go:199-215 | and so is the letter that EncryptMessage seals next on a chain |
| Hazards.RepeatingOldChain | crypto/ratchet/ratchet.go:227-281 | repeating a letter of an older chain fails; the root key stays if and only if the header asks for too large a skip or carries a ciphertext that nothing is pending for, and then the receiver has only read ahead; else it moves to a root key that is nowhere in the conversation and owes a chain on it |
| Hazards.RefusedRepeatHarmless | crypto/ratchet/ratchet.go:228-235 | a repeat that is refused in time costs no letter: each that would have opened opens as before |
| Hazards.StrayRepeatDeafens | crypto/ratchet/ratchet.go:227-281 | after one that is not, no letter of the chains there are, sent before or after, opens unless its key had been filed |
| Hazards.StrayRepeatSilences | crypto/ratchet/ratchet.go:143-173 | nor does the peer open what the receiver seals on the chain it then starts |
| Hazards.StrayRepeatHappens | crypto/ratchet/ratchet.go:225-236 | a run in which this happens exists, for all keys |
| Forgeries.HeaderIsBound | crypto/ratchet/ratchet.go:326-328 | no party in any state opens a box with another header, or other associated data of the same length, than it was sealed with |
| Forgeries.ReflectedFails | crypto/ratchet/ratchet.go:217-246 | a letter that comes back to its own sender does not open |
| Forgeries.OpensOnlyGenuine | crypto/ratchet/ratchet.go:217-246 | in every reachable state, under whatever header and data a box that was ever sealed is presented, it opens only for its addressee, unaltered and for the first time |
| Forgeries.SpoiledCopyCostsLetter | crypto/ratchet/ratchet.go:221-246 | a genuine header on a spoiled box takes the receiver as far as the letter itself would have, and the letter does not open afterwards |
| Forgeries.MadeUpHeaderExactly | crypto/ratchet/ratchet.go:225-293 | for any party and any new header whatever: exactly when the root key moves, the peer key is adopted, the pending ML-KEM key is spent and a chain is owed, and the exact cause of each error |
| Forgeries.LowOrderHeaderSilences | crypto/ratchet/ratchet.go:270-275 | a header with a key that ECDH refuses leaves a party unable to send if and only if it owes a chain |
| RatchetHeader.HeaderCodec | crypto/ratchet/header.go:25-70 | a buffer is read as a header if and only if it is that header's encoding and the header fits the wire |
| Bytes.ReadPutField | crypto/ratchet/header.go:36-88 | a length-prefixed field is read back with exactly the rest of the buffer |
| Bytes.PutReadField | crypto/session/wire.go:26-41 | whatever a field read accepts, writing it again gives the same bytes |
| Bytes.PutU32Injective | crypto/prekey/prekey.go:26-31 | a 32-bit encoding determines its number modulo 2^32, and no more |
| Bytes.PutU64Injective | translog/sth.go:24-30 | a 64-bit encoding determines its number modulo 2^64, and no more |
| Formats.Numbers | translog/sth.go:24-30 | numbers stand with their highest byte first, in four or eight bytes |
| Formats.HeaderBytes | crypto/ratchet/header.go:25-34 | a header, byte by byte |
| Formats.AssociatedDataBytes | crypto/ratchet/ratchet.go:326-328 | the caller's data stands before the header |
| Formats.SubsequentBytes | crypto/session/wire.go:138-180 | a subsequent message's envelope, tag and prefixes included |
| Formats.InitialBytes | crypto/session/wire.go:45-75 | an initial message's envelope, field by field |
| Formats.PrekeyBytes | crypto/prekey/prekey.go:24-31 | prekey leaves and last-resort messages |
| Formats.LogBytes | translog/log.go:43-54 | log leaves and the signed bytes of a head |
| Formats.TranscriptBytes | crypto/session/session.go:40-55 | transcripts: initiator, responder, then slot or key |
| Formats.TreeBytes | crypto/merkle/merkle.go:30-59 | what leaves, nodes and padding are hashed from |
| Merkle.NextPowerOfTwo | crypto/merkle/merkle.go:49-55 | the int64 doubling loop returns two to the ceiling of log2 n, for every n up to 2^62 |
| Merkle.DoublingStopsExactly | crypto/merkle/merkle.go:49-55 | doubling an int64 from 1 ever reaches n if and only if n is at most 2^62 |
| Merkle.DepthIsCeilLog2 | crypto/merkle/merkle.go:127-130 | the depth is the least exponent whose power of two reaches the size |
| Merkle.LeafIsNoNode | crypto/merkle/merkle.go:30-47 | no leaf and inner node are hashed from the same input |
| Merkle.BuildTree | crypto/merkle/merkle.go:72-97 | the loops produce the leaf level, padding included, and every level above it |
| Merkle.LeafLevel | crypto/merkle/merkle.go:76-83 | real leaves, then domain-separated padding, up to the next power of two |
| Merkle.HashPairs | crypto/merkle/merkle.go:88-91 | each node of a level is the hash of its two children |
| Merkle.RootIsRoot | crypto/merkle/merkle.go:100-102 | the last level's node is the recursively defined root |
| Merkle.InclusionProof | crypto/merkle/merkle.go:106-118 | fails exactly for indices out of range, and else returns the honest audit path |
| Merkle.VerifyInclusionProof | crypto/merkle/merkle.go:123-146 | accepts exactly when index, path length and recomputed root are right |
| Merkle.Completeness | crypto/merkle/merkle.go:104-146 | for every domain, tree and leaf the honest path is accepted against the root, and has ceiling of log2 n hashes |
| Merkle.Soundness | crypto/merkle/merkle.go:120-146 | an accepted proof, for any claimed size, is the honest proof of the padded leaf at that index, or yields a collision; a size of another depth always yields one |
| Merkle.ClimbBinds | crypto/merkle/merkle.go:135-145 | from any level, a path that reaches the root is the honest one or leaves it at a collision |
| Merkle.RootBinding | crypto/merkle/merkle.go:72-97 | trees with equal roots, of whatever sizes and domains, have the same padded leaves, or yield a collision |
| Merkle.PaddedInjective | crypto/merkle/merkle.go:57-83 | leaf lists that contain no padding are determined, with their length, by their padded form |
| Merkle.PaddingLeafInjective | crypto/merkle/merkle.go:57-59 | padding leaves are equal if and only if their domains and indices are |
| Merkle.DomainsApart | crypto/merkle/merkle.go:66-70 | trees of two domains that are both padded at some position have different roots, or a collision is at hand |
| Merkle.FullTreeIgnoresDomain | crypto/merkle/merkle.go:71-83 | a tree without padding has the same root in every domain |
| Identity.MarshalInjective | crypto/identity/identity.go:50-62 | an identity is determined by its encoding |
| KemHybrid.PublicKeyCodec | crypto/kemhybrid/hybrid.go:57-84 | a buffer is read as a key if and only if it is the encoding of a key that passes the length and modulus checks |
| KemHybrid.CiphertextCodec | crypto/kemhybrid/hybrid.go:111-133 | the same for ciphertexts whose ML-KEM part has its fixed size |
| KemHybrid.KeysAgreeExactly | crypto/kemhybrid/hybrid.go:135-201 | encapsulation fails exactly for a key that ECDH refuses; decapsulating an honest ciphertext never fails, and gives the initiator's key if and only if private key and transcript are the right ones |
| KemHybrid.DecapsulationFailsExactly | crypto/kemhybrid/hybrid.go:169-187 | decapsulation fails if and only if the ciphertext has the wrong size or its ephemeral key is one that ECDH refuses |
| KeyChecks.SmallOrderDoubles | crypto/kemhybrid/hybrid.go:145-150 | the coordinates counted as low-order are those of points of small order on the curve: each is 0, doubles to 0, or doubles to 1, which doubles to 0 |
| KeyChecks.OneIsRefused | crypto/kemhybrid/hybrid.go:145-150 | coordinates are read lowest byte first: the key 1 is refused, with its highest bit set or not |
| KeyChecks.ReducedExactly | crypto/kemhybrid/hybrid.go:71-84 | the modulus check takes each three bytes as two numbers of twelve bits, which must be below 3329 |
| KeyChecks.TopBitIgnored | crypto/kemhybrid/hybrid.go:145-150 | the highest bit of a key makes no difference to whether it is refused |
| Prekey.GenerateBatch | crypto/prekey/prekey.go:45-76 | refuses sizes below one, and else issues a batch of the drawn keys whose signed root is that of their leaves |
| Prekey.DrawKeys | crypto/prekey/prekey.go:54-66 | keys, encodings and leaves line up index by index |
| Prekey.BundleAt | crypto/prekey/prekey.go:105-121 | fails exactly out of range, and else returns the key at the index with its honest proof |
| Prekey.BundleVerifies | crypto/prekey/prekey.go:128-137 | every bundle of every issued batch passes VerifyBundle |
| Prekey.BundleBinding | crypto/prekey/prekey.go:123-137 | a well-formed key accepted under a batch's root is the batch's key at that index with its honest proof, or yields a collision |
| Prekey.LeafIsNoPadding | crypto/prekey/prekey.go:26-31 | no prekey leaf equals a padding leaf |
| Prekey.LastResortExact | crypto/prekey/prekey.go:151-172 | a last-resort key verifies for its signer only, and only with the key that was signed |
| SignedMessages.SignaturesNotConfused | crypto/prekey/prekey.go:24-75 | batch roots, tree heads and last-resort keys are never the same signed bytes |
| SignedMessages.BatchRootIsNoLogRoot | crypto/merkle/merkle.go:66-70 | the signed root of a batch is never the root of a log, whatever the two hold, or a collision is at hand |
| TransLog.LeafDataInjective | translog/log.go:43-54 | leaf data determines user, key and the index modulo 2^32 |
| TransLog.LeafIsNoPadding | translog/log.go:43-54 | no log leaf equals a padding leaf |
| TransLog.EqualRootsEqualLogs | translog/log.go:114-130 | logs with equal roots have the same length and the same registrations, or yield a collision |
| TransLog.LogRunKeeps | translog/log.go:84-130 | after any run every published head commits to a prefix, the current head is the last one, and the user index agrees with a last-match scan |
| TransLog.LogIsHistory | translog/log.go:84-130 | after any run entry i is the i-th registration, with its user, key, time and index, and head k belongs to the k-th publication, with its time and the number of registrations before it |
| TransLog.LastMatch | translog/log.go:152-162 | the reference scan: the last entry of a user, if there is one |
| TransLog.HonestHeadsAgree | translog/log.go:114-130 | two heads of one size from one honest log have one root |
| TransLog.HeadSignedExactly | translog/sth.go:24-54 | a signed head verifies if and only if operator and root are those signed, and size and time are, modulo 2^32 and 2^64 |
| TransLog.AcceptedIsLogged | translog/client.go:14-23 | an entry accepted under a published head is the one logged at that index, timestamp aside, or yields a collision |
| TransLog.AppendOnly | translog/client.go:14-23 | entries accepted at one index under any two heads of an honest log are the same registration, or one of the proofs yields a collision |
| TransLog.Server.constructor | translog/log.go:69-74 | a new log is empty |
| TransLog.Server.Append | translog/log.go:89-101 | refines the log's append step and returns the new index |
| TransLog.Server.PublishSTH | translog/log.go:108-130 | refines the publish step: the new head commits to all entries and becomes the current one |
| TransLog.Server.LeafList | translog/log.go:115-122 | the leaf data of the first n entries, in order |
| TransLog.Server.LatestEntryForUser | translog/log.go:154-162 | the index map's answer is that of a scan of the whole log |
| TransLog.Server.InclusionProof | translog/log.go:169-194 | errors exactly without a head or beyond it, and else the entry's proof verifies under the current head, whatever was appended since |
| Witness.ObserveSound | translog/witness.go:74-90 | a view stays valid, never changes what it holds, and yields only evidence that anyone can verify |
| Witness.EvidenceSound | translog/witness.go:29-49 | evidence between valid views passes VerifyEvidence |
| Witness.EvidenceExactly | translog/witness.go:29-49 | evidence passes against an operator if and only if both heads name it and its own key verifies both signatures, over two roots at one size; it is ErrEvidenceWrongOperator exactly for evidence that passes against the operator the heads name, presented against another |
| Witness.OnlyTheSignerAccused | translog/witness.go:42-47 | with one signature of somebody's in it, evidence passes against nobody else |
| Witness.AllEvidenceSound | translog/witness.go:92-119 | so does all evidence of any schedule of fetches and gossip in any population |
| Witness.SplitDetected | translog/witness.go:92-119 | if the ends of a path hold different roots of size k and the meetings along it occur in order, with anything interleaved, a meeting brings up evidence for size k |
| Witness.OneRingRoundSuffices | translog/equivocation_test.go:179-199 | one round around a ring detects every split |
| Witness.HonestLogNeverAccused | translog/witness.go:17-22 | heads of one honest server, as it published them, never yield evidence, in any views under any schedule, whatever the log's size |
| Witness.FramedExactly | translog/witness.go:29-49 | evidence against an honest operator, with any sizes, roots and times written into its heads but no signature forged in both halves, can pass VerifyEvidence if and only if two published heads agree in the low 32 bits of their sizes and differ in their roots |
| Witness.FramingEvidence | translog/sth.go:24-30 | the evidence itself: one of those heads with its size changed to the other's, and the other as published |
| Witness.FramingHappens | translog/sth.go:24-30 | a run of an honest log in which this is so, for every hash, or else a collision |
| Witness.SmallLogNeverWraps | translog/sth.go:24-30 | with fewer than 2^32 registrations there are no such heads |
| Witness.HonestLogNeverFramed | translog/witness.go:17-22 | then no views and no schedule ever yield evidence, whatever heads the clients hold or are handed, relabelled ones included, as long as no signature is forged in both halves |
| Witness.SilentExactlyWhenUnanimous | translog/witness.go:92-119 | gossip can yield evidence under some schedule if and only if two clients hold different roots of one size |
| Witness.ClientView.constructor | translog/witness.go:64-69 | a new view remembers nothing |
| Witness.ClientView.Observe | translog/witness.go:74-90 | refines `Observed`, with its three outcomes and two errors |
| Witness.ClientView.ObserveAll | translog/witness.go:108-112 | in whatever order the heads come, the view merges them and gathers one piece of evidence for each contradicted size, each once |
| Witness.ClientView.GossipWith | translog/witness.go:98-119 | both sides merge what the other remembered before, and each gets exactly the evidence for its own conflicts; a view may gossip with itself |
| Wire.SubsequentCodec | crypto/session/wire.go:138-164 | a buffer is read as a message if and only if it is its encoding and the message fits the wire |
| Wire.InitialCodec | crypto/session/wire.go:45-127 | the same for initial messages, up to normalising the last-resort flag byte |
| Wire.IdentityCodec | crypto/session/wire.go:201-215 | an identity is read from exactly its encoding |
| Wire.EnvelopeCodec | crypto/session/wire.go:166-199 | an envelope is read from exactly its encoding, up to that flag byte |
| Wire.EnvelopeRoundTrip | crypto/session/wire.go:169-199 | UnmarshalEnvelope inverts both MarshalEnvelopes |
| Session.TranscriptBinds | crypto/session/session.go:35-55 | transcripts are equal if and only if both identities, the batch root and the index modulo 2^32 are |
| Session.LastResortTranscriptBinds | crypto/session/session.go:136-150 | last-resort transcripts are equal if and only if both identities and the key are |
| Session.TranscriptsDisjoint | crypto/session/session.go:40-150 | the two kinds coincide exactly for one last-resort "key" of 36 bytes, so never for a key of the right size |
| Session.RespondsExactly | crypto/session/session.go:105-134 | a responder accepts a message if and only if its key and transcript are the initiator's, and then reads the first message |
| Session.Establishes | crypto/session/session.go:57-134 | the right responder's state and the initiator's together are a reachable state of a conversation |
| Session.FitsTheWire | crypto/session/wire.go:166-199 | the initiator's message survives the envelope unchanged |
| Session.OneTimeSession | crypto/session/session.go:57-134 | end to end for every batch, index and first message: both ends succeed, and their states begin a conversation to which all theorems about runs apply |
| Session.OneTimeExactly | crypto/session/session.go:35-55 | an answer succeeds if and only if sender, responder, prekey slot and private key are the initiator's; a last-resort key never answers |
| Session.LastResortSession | crypto/session/session.go:159-229 | the same end to end for the last-resort key |
| Session.LastResortExactly | crypto/session/session.go:136-229 | an answer succeeds if and only if sender, responder and key are the initiator's; a one-time prekey never answers |
| Session.OneTimeFromBytes | crypto/session/session.go:57-134 | end to end from the bytes alone: a responder that unmarshals the envelope and takes key and bundle from its own batch as the message says returns the first message, for every batch, index and last-resort key |
| Session.LastResortFromBytes | crypto/session/session.go:159-229 | the same for the last-resort key |
| Session.MessageNames | crypto/session/session.go:96-102 | a message names its sender, its slot and its kind |
| Session.InitiatesExactly | crypto/session/session.go:61-85 | a session is begun if and only if the responder signed the bundle's root, the proof is accepted and the key is usable |
| Session.InitiatesLastResortExactly | crypto/session/session.go:159-185 | the same for the last-resort key |
| Session.InitiatorBound | crypto/session/session.go:57-103 | under a signature that the responder made for a batch, a session is begun with that batch's own key at the index that the message names, or a collision is at hand |
| Session.StartInitiator | crypto/session/session.go:81-102 | the ratchet object holds what `TryInitiate` says after its first message, or the error is the same |
| Session.StartResponder | crypto/session/session.go:121-133 | the ratchet object holds what `Respond` says, or the error is the same |
| Session.EstablishAsInitiator | crypto/session/session.go:61-103 | refines `AsInitiator`, checks and errors included |
| Session.EstablishAsResponder | crypto/session/session.go:110-134 | refines `AsResponder` |
| Session.EstablishAsInitiatorLastResort | crypto/session/session.go:159-201 | refines `AsInitiatorLastResort` |
| Session.EstablishAsResponderLastResort | crypto/session/session.go:205-229 | refines `AsResponderLastResort` |
| Directory.AllocatesInOrder | relay/relay.go:116-144 | between publications, whatever other users do, the first m fetches return the m bundles in order, later ones fall back or fail, and last-resort uses are max(0, fetches - m) with a last-resort key and 0 without |
| Directory.NeverIssuedTwice | relay/relay.go:116-120 | no bundle of a batch of distinct bundles is issued twice |
| Directory.NeverPublished | relay/relay.go:121-129 | until a user publishes, every fetch for it fails with ErrNoPrekeysPublished, whatever others do |
| Relay.UserPrekeys.constructor | relay/relay.go:109-113 | a published batch starts unissued |
| Relay.UserPrekeys.Fetch | relay/relay.go:130-143 | the circular scan over consumed flags takes the counter's next bundle, and falls back exactly when all are issued |
| Relay.UserPrekeys.Remaining | relay/relay.go:54-62 | issued and remaining bundles add up to the batch |
| Relay.Server.constructor | relay/relay.go:73-79 | a new relay is empty |
| Relay.Server.PublishIdentity | relay/relay.go:85-89 | the user becomes known, and no queue changes |
| Relay.Server.PublishPrekeys | relay/relay.go:106-114 | refines the publish step: this user's pool starts afresh and no other changes |
| Relay.Server.FetchPrekeyBundle | relay/relay.go:121-144 | refines the fetch step for this user and changes no other pool |
| Relay.Server.Telemetry | relay/relay.go:172-184 | reports the batch size, what remains of it, and the fall-backs |
| Relay.Server.SendMessage | relay/relay.go:189-201 | refines the send step: appended to a known recipient's queue, refused otherwise |
| Relay.Server.PollMessages | relay/relay.go:205-211 | refines the poll step: the whole queue, which is then gone |
| Relay.Server.KeepFresh | relay/relay.go:220-227 | keeps what has not expired, in order, and counts the rest |
| Relay.Server.PurgeExpired | relay/relay.go:215-235 | refines the purge step in whatever order the map is ranged over, and returns the exact number removed over all users |
| Mailbox.KeptExactly | relay/relay.go:221-227 | a purge keeps exactly the messages that have waited no longer than the time to live |
| Mailbox.RefusedExactly | relay/relay.go:189-201 | after any run a message is refused, and changes nothing, if and only if its recipient has never registered; otherwise it is appended to the recipient's queue |
| Mailbox.Conservation | relay/relay.go:186-235 | after any run there is one fate for each accepted message such that every queue and every delivery log is exactly the messages of its fate in send order, and the purge counts add up to the discarded ones of all users |
| Mailbox.TotalsBalance | relay/relay.go:186-235 | over all users, accepted messages are the queued, the delivered and the purged ones |
| Channel.ReadsAll | relay/e2e_test.go:77-133 | unwrapping and decrypting the letters on their way, in the order they were sent, opens every one of them and gives its plaintext |
| Channel.ChannelIsFifo | relay/e2e_test.go:11-16 | over every run of the whole system, whatever the two write and collect and whatever others do at the relay: what a user has read is what the other has written, in order, without gap and without failure, what is missing is in the queue, and after collecting nothing is missing |
| Channel.SessionOpens | relay/e2e_test.go:77-103 | a session as `OneTimeSession` and `LastResortSession` establish it is a beginning of such a run |
| Channel.PurgeSpares | relay/relay.go:221-227 | a purge at which no letter of a sender's has expired leaves that sender's letters as they are |

## Left out

- The primitives (X25519, ML-KEM, ML-DSA, Ed25519, SHA-256, HKDF, ChaCha20-Poly1305), computational security, side channels and the quality of randomness: the terms and the hash parameter stand for them.
- Errors of the random generator and of marshalling valid keys.
- `PutU32`: the conversion to uint32 is modelled with its truncation; the run theorems ask that counters stay below 2^32.
- Forged or altered letters in the runs: the network delivers letters that were sent, in any order and possibly again. `Forgeries` and `OpensUnkeyedExactly` are about single packets of any kind in any reachable state, but runs on them are not explored.
- What follows after a letter was repeated or a head overtaken, beyond the loss shown in `Hazards`.
- KeyChecks.SmallOrderDoubles: that no further coordinate has small order is not proved.
- Session.OneTimeFromBytes: how a responder chooses its key is its caller's code in the library; `AnswerEnvelope` does what the library's documentation and its end-to-end test do.
- Channel.ChannelIsFifo: begins once both sessions are established; that nobody else sends in one of the two names, polls for them, or lets their letters expire is asked of the world, since the relay authenticates no one.
- Witness.FramedExactly: a half of a hybrid signature counts as the operator's when the operator made it for a published head; an operator key that signs anything else is not considered.
- Session.OneTimeSession: asks that the initiator's new ratchet key differs from the prekey, and that the AEAD's bytes for the first box are read back and are shorter than 2^32.
- Prekey.BundleBinding: is about keys of the published size, which `EstablishAsInitiator` checks next; other byte strings cannot be used as keys.
- Merkle.NextPowerOfTwo: asks for sizes up to 2^62, and so do the methods that call it, since beyond that the loop does not return.
- Merkle.VerifyInclusionProof: the same for the claimed size when the index is within it; `Merkle.Soundness` covers every claimed size.
- TransLog.EqualRootsEqualLogs: logs of up to 2^62 entries, which is all that `BuildTree` can build.
- RatchetHeader.UnmarshalHeader and the initial message's parser: single expressions rather than an object filled field by field.
- Error texts: errors are told apart by kind, and the codecs' several truncation errors are one kind each.
- Mutexes and goroutines: every server method runs under one lock and is one step here. Sharing of byte slices between caller and callee is not modelled.
- Time: a verdict per call in the ratchet, an integer in the log and the relay; saturation of time differences is not modelled.
- `FetchIdentity`, `CurrentSTH`, `Entry`, `LastResortPrekey`, `CheckKeyChange`, `Batch.PrivateKey`: accessors of one branch each.
- `crypto/kat`: checks of fixed vectors.
