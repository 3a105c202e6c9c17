# Signal protocol core: a verified model

This project models the Rust core of the Signal client library and proves what its protocol is
for. It covers four components.

* **Pairwise sessions** (`rust/protocol`): X3DH set-up, the Double Ratchet with its skipped-key
  caches, the record of one current and up to 40 archived sessions, and the in-memory stores.
* **Group sender keys** (`rust/protocol`): one hash chain per sender, its skipped-key list and the
  queue of states.
* **AES-256-GCM-SIV** (`rust/aes-gcm-siv`): POLYVAL with the two-fold reduction, counter mode and
  the in-place `encrypt` and `decrypt`.
* **Two loop-level refinements**: the branch-free byte comparison and HKDF expansion.

`dafny verify dfyconfig.toml` checks everything.

## How the model is built

Cryptographic primitives of the protocol are symbolic (`Crypto`, `SenderKeys`): HKDF, HMAC, AES-CBC
and signatures are free constructors, and a Diffie-Hellman result is the unordered pair of the two
secrets. A key pair is one id. Terms are equal only if they were derived in the same way, so
agreement and distinctness of keys are proved, not assumed. In `GcmSiv` and `Hkdf` the AES block
function and HMAC are arbitrary functions passed as parameters.

Code that updates state is a class or an array method (`Session.SessionState`,
`Record.SessionRecord`, `Store.ProtocolStore`, `SenderKeys.SenderKeyState`,
`SenderKeys.SenderKeyStore`, `Polyval.PolyvalClmul`, and the array methods of `GcmSiv`). Each method
is proved equal to a function on values, and the protocol theorems are about those functions.
Random draws (new ratchet keys, base keys, sender key seeds) are parameters, and runs require that
they are new.

| module | models |
|---|---|
| `Prelude`, `Crypto` | results, limits, symbolic terms |
| `Ratchet` | `ratchet/keys.rs`, key lineages of a session |
| `SkippedKeys` | the counter window that both receiving ratchets refine |
| `Session`, `ReceiverChains` | `state/session.rs` and the per-session half of `session_cipher.rs` |
| `Lockstep`, `Runs` | two sessions and an adversarial network; all runs |
| `X3dh`, `Handshake` | `ratchet.rs`, `process_prekey_bundle`, set-up round trip |
| `Record`, `Store`, `Outcomes` | `SessionRecord`, the stores, `session.rs`, the store half of `session_cipher.rs` |
| `Labels`, `PreKeyRuns`, `CounterRuns`, `IdentityRuns` | runs of one store over all addresses |
| `Replays`, `Secrecy` | when a store accepts a message again; what a copied session state gives away |
| `Origins`, `Routing`, `World` | many sessions between two users, in both directions |
| `Delivery`, `Contact` | one of those sessions, from its bundle on, through the stores of both users |
| `SenderKeys`, `GroupRuns` | `sender_keys.rs`, `group_cipher.rs`, runs of a group |
| `Gf2`, `Polyval`, `GcmSiv` | `polyval_clmul.rs`, `polyval_pmul.rs`, `aes.rs`, `aes_gcm_siv.rs` |
| `Rfc8452` | sections 4 and 5 of RFC 8452, independently of the code, and why the code meets them |
| `ConstantTime`, `Hkdf` | `utils.rs`, `kdf.rs` |

In `World`, `Delivery` and `Contact` the wrapper of a pre-key message is not authenticated: its
version, base key, identity key and ids are whatever the network likes. `Delivery` follows a session
as long as no wrapper makes a store start a second session with the same X3DH secrets and the
archive drops neither end; `Contact.RestartStrandsReplies` says what happens otherwise. The network
of `Lockstep` may lose, repeat, reorder, reflect and alter messages. It may present any message at
all, except a MAC under a key that descends from the session's own X3DH secrets and that neither
party sent.

## Where the code falls short of a natural property

* **Pre-key id 0.** The pending state stores id 0 for "no one-time pre-key"
  (`rust/protocol/src/state/session.rs:352` and `:365-368`). For a bundle whose one-time pre-key has
  id 0 the initiator uses the key and announces none, so the responder derives other secrets.
  `Handshake.RoundTripIff` states the exact condition through both stores: the first message is
  decrypted to its plaintext if and only if the bundle has no one-time pre-key or a non-zero id.
* **Version of a pre-key wrapper.** `has_session_state` is asked with the version on the wrapper,
  which no MAC covers (`rust/protocol/src/protocol.rs:328-337` checks the other nibble), while new
  responder sessions always have version 3. A pre-key message without one-time pre-key is therefore
  accepted again, with the same plaintext, from a wrapper of any other version, while its session is
  still retained, and the stored record then has two sessions with one version and base key
  (`Replays.WrapperVersionReplay`). `Replays.ReplayIff` says exactly when an accepted pre-key message
  is accepted again, `Replays.StoredIdsDistinctIff` exactly when the ids of the stored record stay
  distinct.
* **A restarted session.** Such a wrapper makes the responder start the session again and reply on it.
  The initiator decrypts that reply if and only if it has not yet received any reply of the first
  responder session (`Contact.RestartStrandsReplies`); after one exchange it does not.
  `Contact.RestartRecoveryIff` says which message of the initiator makes the first session current
  again. A wrapper that names the session's keys restarts it if and
  only if it shows another version (`Contact.RestartNeedsOtherVersion`).
* **Forward secrecy of the first message.** What a copied session state gives away of past messages
  is exactly what the private keys alone give (`Secrecy.ForwardSecrecy`). Without a one-time pre-key
  the responder's identity key and signed pre-key, which its store keeps, give the keys of the first
  message at any later time (`Secrecy.FirstMessageStaysExposed`); right after acceptance the stored
  keys give them if and only if the bundle had no one-time pre-key (`Secrecy.FirstMessageExposedIff`).
* **u32 counters.** Chain indices advance with `+ 1`. The model wraps, as a release build does.
  `CounterRuns.CounterAdvancesIff` says when the counter of a chain repeats, and runs carry the bound.
* **8-bit HKDF counter.** The counter byte is the block number exactly up to block 255
  (`Hkdf.CounterIsBlockNumberIff`), which is the limit of RFC 5869.

## Model

| member | source | states |
|---|---|---|
| `SkippedKeys.AcceptanceCondition` | rust/protocol/src/session_cipher.rs:391-426 | a counter is accepted if and only if it was not accepted before, is not below the floor and is at most 2000 ahead |
| `SkippedKeys.ReceiveKeepsExact` | rust/protocol/src/state/session.rs:263-321 | after any acceptance the cache is again exactly the skipped, unconsumed counters from the floor on, sorted, at most 2000; the floor does not fall |
| `SkippedKeys.SkipToIsNewest` | rust/protocol/src/state/session.rs:306-311 | pushing and trimming one by one keeps exactly the newest 2000 skipped counters |
| `SkippedKeys.FloorStaysBelow` | rust/protocol/src/consts.rs:6-7 | jump limit and cache limit together: deliveries within 2001 counters evict nothing from that range |
| `SkippedKeys.ReorderingLimit` | rust/protocol/src/consts.rs:6-7 | every duplicate-free order of `count` counters from the next one is accepted completely if and only if `count <= 2001` |
| `Ratchet.ChainSecretsDistinct` | rust/protocol/src/ratchet/keys.rs:104-169 | epoch and counter can be read off a key term, so no two messages of a session share keys |
| `Ratchet.OpenedChainMeetsOnlyNextEpoch` | rust/protocol/src/ratchet/keys.rs:146-169 | a chain opened on the root of epoch n can only coincide with epoch n + 1 |
| `Session.SessionState.GetReceiverChain` | rust/protocol/src/state/session.rs:138-158 | finds the first chain with the ratchet key, or reports that there is none |
| `Session.SessionState.AddReceiverChain` | rust/protocol/src/state/session.rs:176-200 | appends a chain and drops the oldest beyond five |
| `Session.SessionState.GetMessageKeys` | rust/protocol/src/state/session.rs:263-291 | returns and removes the cached key of a counter, and only that one |
| `Session.SessionState.SetMessageKeys` | rust/protocol/src/state/session.rs:293-321 | caches a key in front, dropping the last beyond 2000; fails without the chain |
| `Session.SessionState.GetOrCreateChainKey` | rust/protocol/src/session_cipher.rs:359-389 | returns the chain key of the selected chain, after a full ratchet step if the key is new, and says exactly when it fails |
| `Session.SessionState.GetOrCreateMessageKey` | rust/protocol/src/session_cipher.rs:391-426 | the loop computes `TakeKeys` on the selected chain and touches no other |
| `Session.SessionState.DecryptMessage` | rust/protocol/src/session_cipher.rs:289-333 | result and new state of every branch, including the state left behind by failures |
| `Session.SessionState.EncryptMessage` | rust/protocol/src/session_cipher.rs:33-84 | the message returned and the advanced sending chain, or the error |
| `ReceiverChains.TakeKeysRefines` | rust/protocol/src/session_cipher.rs:391-426 | a receiver chain answers as the counter window does and hands out the key that the chain's start determines |
| `Lockstep.EpochLookup` | rust/protocol/src/state/session.rs:193-197 | exactly the peer's last five epochs below ours have a receiver chain |
| `Lockstep.KnownChainAttempt` | rust/protocol/src/session_cipher.rs:289-333 | an attempt on a retained chain: the window decides, the key is that of the epoch |
| `Lockstep.NewChainAttempt` | rust/protocol/src/session_cipher.rs:359-389 | an attempt with an unknown ratchet key opens a chain on the current root |
| `Lockstep.Authenticity` | rust/protocol/src/session_cipher.rs:289-333 | whatever the network presents, an accepted message was sent by the peer bit for bit, was not accepted before and yields its plaintext |
| `Lockstep.DeliveryIff` | rust/protocol/src/session_cipher.rs:289-426 | an honest message decrypts to its plaintext if and only if its chain is new or among the last five, it is at most 2000 ahead, unconsumed and not evicted |
| `Lockstep.SendReturnsLoggedMessage` | rust/protocol/src/session_cipher.rs:33-84 | the message returned by a send is the one at the next counter of the sender's epoch |
| `Lockstep.SendKeepsInv` | rust/protocol/src/session_cipher.rs:33-86 | sending keeps both sessions functions of one history |
| `Lockstep.AcceptOnKnownChainKeepsInv` | rust/protocol/src/session_cipher.rs:391-426 | accepting on a retained chain keeps lockstep |
| `Lockstep.AcceptOnNewChainKeepsInv` | rust/protocol/src/session_cipher.rs:359-389 | accepting on a new chain moves the receiver two epochs on and keeps lockstep |
| `Runs.RunKeepsInv` | rust/protocol/src/session_cipher.rs:359-426 | in every run the roots, chains, indices and caches of both sessions are those of one history, one ratchet step apart |
| `Runs.OneStepApart` | rust/protocol/src/ratchet/keys.rs:146-169 | the root of the party ahead is one ratchet step from the other's, with both current ratchet keys |
| `Runs.RunGrows` | rust/protocol/src/state/session.rs:263-321 | over every run nothing sent or accepted is forgotten, and floors and chain indices never fall |
| `Runs.CachesAreExact` | rust/protocol/src/state/session.rs:293-321 | at the end of every run each cache is in strict order, at most 2000 long, exact from its floor on, and holds recomputed keys |
| `Runs.NoReplay` | rust/protocol/src/session_cipher.rs:391-426 | after any run, a message once accepted is rejected, also after its chain was evicted |
| `Runs.FirstDelivery` | rust/protocol/src/session_cipher.rs:22-112 | a message sent anywhere in a run and delivered later gives exactly the plaintext, if and only if it is deliverable then |
| `Runs.AnyOrderIsDelivered` | rust/protocol/src/session_cipher.rs:408-425 | any order of up to 2001 consecutive messages of one chain, each delivered once, decrypts completely |
| `X3dh.InitializeAliceSession` | rust/protocol/src/ratchet.rs:29-93 | the initiator's session: secrets, root, sending chain and first receiver chain |
| `X3dh.InitializeBobSession` | rust/protocol/src/ratchet.rs:95-146 | the responder's session |
| `X3dh.SecretsAgreeIff` | rust/protocol/src/ratchet.rs:37-63 | both sides derive the same secrets if and only if they use the same one-time pre-key |
| `X3dh.SecretsBindPeer` | rust/protocol/src/ratchet.rs:98-122 | the secrets of each side determine every key of the other side |
| `X3dh.InitialisersStartLockstep` | rust/protocol/src/ratchet.rs:29-146 | matching initialisations satisfy the lockstep invariant |
| `Record.SessionRecord.HasSessionState` | rust/protocol/src/state/session.rs:460-478 | true exactly if the current or an archived session has the version and base key |
| `Record.SessionRecord.ArchiveCurrentState` | rust/protocol/src/state/session.rs:532-542 | moves the current session to the front of the archive, dropping the last beyond 40 |
| `Record.ArchiveKeepsNewest` | rust/protocol/src/state/session.rs:532-542 | archiving keeps the newest 40 sessions in order; at most the oldest of a full archive is lost |
| `Record.PromoteKeepsNewest` | rust/protocol/src/state/session.rs:526-542 | the same when a session is added, which becomes current in front of all others |
| `Record.SessionRecord.PromoteOldSession` | rust/protocol/src/state/session.rs:511-520 | replaces an archived session by its successor as current session, or fails unchanged |
| `Record.SessionRecord.DecryptMessage` | rust/protocol/src/session_cipher.rs:240-287 | the search over clones: current first, then archived in order, stopped by success or a duplicate |
| `Record.DecryptConservesSessions` | rust/protocol/src/session_cipher.rs:240-287 | an error leaves the record alone; a success replaces one session by its successor in front, keeps the others in order, evicts none and keeps the limit of 40 |
| `Record.DecryptKeepsDistinctIds` | rust/protocol/src/state/session.rs:460-478 | after decryption version and base key pairs are distinct if and only if they were before |
| `Record.PromoteKeepsDistinctIdsIff` | rust/protocol/src/state/session.rs:526-542 | adding a session keeps the pairs distinct if and only if no surviving session has its pair |
| `Store.ProtocolStore.SaveIdentityKey` | rust/protocol/src/storage/inmem.rs:42-61 | records the identity and reports whether it replaced another one |
| `Store.ProtocolStore.MessageEncrypt` | rust/protocol/src/session_cipher.rs:22-112 | store and result of every branch; nothing is stored for an untrusted identity |
| `Store.ProtocolStore.MessageDecryptSignal` | rust/protocol/src/session_cipher.rs:194-238 | store and result of every branch |
| `Store.ProtocolStore.ProcessPreKeyMessage` | rust/protocol/src/session.rs:29-123 | the processed record and the one-time pre-key to remove, or the error with nothing changed |
| `Store.ProtocolStore.MessageDecryptPreKey` | rust/protocol/src/session_cipher.rs:155-192 | store and result of every branch; the identity is saved before decryption |
| `Store.ProtocolStore.ProcessPreKeyBundle` | rust/protocol/src/session.rs:125-197 | store and result of every branch |
| `Outcomes.BundleIsAcceptedIff` | rust/protocol/src/session.rs:125-150 | a bundle is accepted if and only if its identity is unknown for the address or the known one and that identity signed the signed pre-key |
| `Outcomes.BundleOutcome` | rust/protocol/src/session.rs:125-197 | the error of every refused bundle, with the store unchanged, and all that an accepted one changes |
| `Outcomes.EncryptionSucceedsIff` | rust/protocol/src/session_cipher.rs:33-101 | encryption succeeds if and only if there is a complete current session whose remote identity is not refused |
| `Outcomes.EncryptionOutcome` | rust/protocol/src/session_cipher.rs:22-112 | the error of every refused encryption, an untrusted identity included, with nothing stored, and all that a success changes |
| `Outcomes.SentMessageKeys` | rust/protocol/src/ratchet/keys.rs:21-29 | which bytes of which chain secret's material encrypt and authenticate a returned message, and the chain that is stored |
| `Outcomes.SessionDecryptionOutcome` | rust/protocol/src/session_cipher.rs:289-333 | what a session refuses, in the order of its checks and with which error; success exactly if the chain hands out keys that fit MAC and body |
| `Outcomes.SearchOutcome` | rust/protocol/src/session_cipher.rs:240-287 | the record gives the result of the first session whose attempt succeeds or reports a duplicate, and says that no session matches if there is none |
| `Outcomes.LookupOutcome` | rust/protocol/src/state/session.rs:460-478 | which retained session a version and base key find; a stored version 0 counts as 2 |
| `Outcomes.SignalOutcome` | rust/protocol/src/session_cipher.rs:194-238 | for every store, an accepting session with another identity than the known one is refused with nothing stored |
| `Outcomes.PreKeyProcessingOutcome` | rust/protocol/src/session.rs:40-122 | the error of every pre-key message that cannot be processed, in the order of the checks |
| `Outcomes.PreKeyMessageOutcome` | rust/protocol/src/session_cipher.rs:155-192 | the identity is recorded as soon as the message could be processed; only a success stores the record and removes the one pre-key that was used |
| `PreKeyRuns.FailedDecryptionChangesNothing` | rust/protocol/src/session_cipher.rs:155-238 | on any error sessions and pre-keys are unchanged; only the identity of a processed pre-key message may be saved |
| `PreKeyRuns.PreKeyRemoval` | rust/protocol/src/session_cipher.rs:180-191 | a one-time pre-key leaves the store only by a decrypted pre-key message naming it, and the session it started is then stored |
| `PreKeyRuns.SpentByItsOwnSession` | rust/protocol/src/session_cipher.rs:155-192 | the session that the key started is the one that opened the message if and only if the MAC key descends from its secrets; otherwise it is stored unused behind the older session that did |
| `PreKeyRuns.StepKeepsPreKeyInv` | rust/protocol/src/session.rs:79-122 | every store operation, whatever the bundle or message, keeps: backings of responder sessions are distinct, our own, and none is still in the store |
| `PreKeyRuns.OneSessionPerPreKey` | rust/protocol/src/storage/inmem.rs:110-135 | in every run over all addresses a one-time pre-key saved once backs at most one retained responder session, and none while it is stored |
| `CounterRuns.SenderAfterDecrypt` | rust/protocol/src/session_cipher.rs:359-389 | a successful decryption keeps the sending chain or starts a new one at counter 0 |
| `CounterRuns.NoCounterReuse` | rust/protocol/src/session_cipher.rs:33-111 | over every run of a store, with failures, archiving and re-promotion, no two returned messages share sending chain and counter |
| `CounterRuns.CounterAdvancesIff` | rust/protocol/src/ratchet/keys.rs:104-110 | the counter of a chain grows with a message if and only if it is not the last u32 value |
| `IdentityRuns.RunPinsIdentities` | rust/protocol/src/storage/inmem.rs:42-76 | in every run a known identity never changes, and every session of an address is with it |
| `IdentityRuns.OtherIdentityIsRefused` | rust/protocol/src/session.rs:40-52 | another identity for a known address is refused and nothing changes |
| `Handshake.FirstMessageIsReturned` | rust/protocol/src/session.rs:125-197 | a processed bundle followed by an encryption returns a pre-key message with the bundle's ids and the new base key |
| `Handshake.BundleRoundTrip` | rust/protocol/src/session.rs:71-197 | for every backed bundle without one-time pre-key or with a non-zero id, the responder decrypts the first message to its plaintext, and both stores hold a lockstep pair with the same base key |
| `Handshake.RoundTripIff` | rust/protocol/src/session.rs:71-197 | when no session filed for the address has the initiator's new secrets, the responder's store returns the plaintext if and only if the bundle has no one-time pre-key or a non-zero id, and an error otherwise |
| `Handshake.PreKeyIdZeroFails` | rust/protocol/src/state/session.rs:345-375 | with pre-key id 0 the responder's new session rejects the first message, whatever else is filed |
| `Handshake.PreKeyMessagesUntilReply` | rust/protocol/src/state/session.rs:345-380 | messages of an initiator's session are pre-key messages, all with the same base key and ids, exactly until its first successful decryption |
| `Origins.OpensOnlyOwnOrigin` | rust/protocol/src/session_cipher.rs:289-333 | for every message at all: a session that opens it holds the X3DH secrets behind its MAC key |
| `Routing.ForeignSessionDoesNotStop` | rust/protocol/src/session_cipher.rs:240-287 | a session with another base key neither accepts an honest message nor reports it as duplicate |
| `Routing.AcceptedWasPosted` | rust/protocol/src/session_cipher.rs:240-287 | a message that a retained session accepts was sent unaltered under that session's base key |
| `Routing.MessageFindsItsSession` | rust/protocol/src/session_cipher.rs:240-287 | no session of another base key ends the search; the search succeeds if and only if a session of the message's base key accepts before another one of that base key stops it; the acceptor is then current |
| `World.StepKeepsWorldInv` | rust/protocol/src/session.rs:29-197 | every step of two users with sessions in both directions keeps the routing invariant, for wrappers of any version and base key |
| `World.EveryMessageFindsItsSession` | rust/protocol/src/session_cipher.rs:240-287 | in every run of two new stores, for any wrappers: no session of another base key ends the search for a sent message, success is exactly as in `Routing.MessageFindsItsSession`, and the acceptor becomes current; if the ids of the record are distinct, success is exactly acceptance by the one session of the base key |
| `World.OrdinaryRunKeepsIdsDistinct` | rust/protocol/src/state/session.rs:460-478 | runs in which no wrapper of another version repeats a retained base key keep version and base key distinct in both records |
| `Replays.StoredIdsDistinctIff` | rust/protocol/src/session.rs:79-85 | an accepted pre-key message leaves distinct ids in the stored record if and only if the lookup with the wrapper's version hits or no surviving session has the base key |
| `Replays.WrapperVersionReplay` | rust/protocol/src/session.rs:79-120 | for every backed bundle without one-time pre-key, a responder without a record decrypts the first message, decrypts it again from a wrapper of any other version, and then stores two sessions with one id |
| `Replays.DecryptSpends` | rust/protocol/src/session_cipher.rs:359-426 | no message assumption: the chain secret behind an accepted MAC is spent and stays spent, and a spent secret opens nothing |
| `Replays.RunKeepsClosed` | rust/protocol/src/session_cipher.rs:240-287 | over every run of a store that starts no session with the same secrets, no retained session can derive a spent secret again |
| `Replays.ReachableIsSound` | rust/protocol/src/state/session.rs:193-321 | in every reachable store, cached keys are earlier keys of their chain, each once, and receiving and sending chains stem from different ratchet steps |
| `Replays.OnlyNewSessionReplays` | rust/protocol/src/session_cipher.rs:155-287 | after an acceptance and any such run, the plain message is rejected, and a wrapper around it is accepted if and only if it is trusted, its version and base key are not retained and the session it starts opens the message |
| `Replays.ReplayIff` | rust/protocol/src/session_cipher.rs:155-192 | a pre-key message opened by the session it started is accepted again, after any such run and under any wrapper version, if and only if the sender is trusted, no retained session has that version and base key, and the named keys are still stored; the plaintext is then the same |
| `Replays.ImmediateReplayIff` | rust/protocol/src/session.rs:79-122 | right after its acceptance it is accepted again if and only if the wrapper shows another version and names no one-time pre-key |
| `Delivery.StepKeepsPair` | rust/protocol/src/session_cipher.rs:240-333 | among any number of other sessions and with any wrapper, each step of the world performs a step of the two-party system, or none, and keeps its lockstep, provided it starts no second session with the same secrets and evicts no end |
| `Delivery.RunKeepsPair` | rust/protocol/src/session_cipher.rs:240-333 | the same over whole runs, from the bundle on; the history only grows |
| `Delivery.RoutedDeliveryIff` | rust/protocol/src/session_cipher.rs:114-333 | the store of the other end decrypts a message of the pair, plain or wrapped as its sender wraps it, to its plaintext if and only if it has a current session, the message is deliverable and the sender is trusted |
| `Delivery.SentThenDelivered` | rust/protocol/src/session_cipher.rs:22-333 | the very message that `message_encrypt` returns on the session, of either kind, reaches the other user's store through `message_decrypt`, after any such run in which that end exists, exactly under that condition |
| `Contact.BundleStartsPair` | rust/protocol/src/session.rs:125-197 | in a world with any number of other sessions, processing a valid bundle of the peer starts such a pair |
| `Contact.FirstContactIff` | rust/protocol/src/session_cipher.rs:155-192 | before the ends met, a message of the pair in any wrapper is decrypted if and only if the wrapper's identity is trusted, it makes the store start a session with the pair's secrets, and the message is deliverable |
| `Contact.SetUpIff` | rust/protocol/src/session.rs:71-197 | between two users with any other sessions, the first message for a backed bundle is decrypted to its plaintext if and only if there is no one-time pre-key or its id is not 0 |
| `Contact.RestartNeedsOtherVersion` | rust/protocol/src/session.rs:79-85 | once the ends met, a wrapper that names the pair's keys restarts the session if and only if it shows another version |
| `Contact.ForkedReplyIff` | rust/protocol/src/session_cipher.rs:359-389 | an initiator opens a message on the chain of a restarted responder if and only if it is still in its first epoch |
| `Contact.RestartStrandsReplies` | rust/protocol/src/session.rs:79-120 | through both stores: a replayed wrapper restarts the responder's session, and its next message is decrypted if and only if the initiator is in its first epoch, has a current session and trusts the responder |
| `Contact.RestartRecoveryIff` | rust/protocol/src/session_cipher.rs:240-287 | after a restart, a message of the initiator's first chain in reach of the restarted session is answered by it; any other one is decrypted if and only if the first session is still archived and the message is deliverable to it, and that session is then current again |
| `Secrecy.ForwardSecrecy` | rust/protocol/src/ratchet/keys.rs:104-169 | once a message was accepted or sent, the session's state at any later time, together with any private keys, gives its keys if and only if those private keys alone give them |
| `Secrecy.EpochFromKeysIff` | rust/protocol/src/ratchet.rs:29-146 | private keys alone give the keys of an epoch if and only if every X3DH agreement and every ratchet agreement up to it has an end among them |
| `Secrecy.EpochSecrecyIff` | rust/protocol/src/ratchet/keys.rs:146-169 | both together: exactly when an accepted message of a session's history is given away later |
| `Secrecy.StoreForwardSecrecy` | rust/protocol/src/session_cipher.rs:240-287 | no session retained for the address adds anything to the private keys either, over every run that starts no session with the same secrets |
| `Secrecy.FirstMessageExposedIff` | rust/protocol/src/session_cipher.rs:155-192 | right after the responder accepted the first message, the private keys in its store give its keys if and only if the bundle had no one-time pre-key |
| `Secrecy.FirstMessageStaysExposed` | rust/protocol/src/ratchet.rs:98-122 | without a one-time pre-key the responder's identity key and signed pre-key give the keys of the first message at any later time |
| `Secrecy.NewChainHeals` | rust/protocol/src/session_cipher.rs:359-389 | after a state was copied, one accepted message on a new chain, with two keys that were not copied, puts root and sending chain out of reach |
| `Secrecy.HealedForGood` | rust/protocol/src/session_cipher.rs:22-112 | and they stay out of reach, whatever the session sends and receives |
| `Secrecy.SentAfterRecovery` | rust/protocol/src/session_cipher.rs:33-84 | every message sent after that has keys that do not follow from the copied state |
| `Secrecy.ReceivedAfterRecovery` | rust/protocol/src/session_cipher.rs:359-426 | so has every message accepted on a chain opened after that |
| `SenderKeys.SenderKeyState.AddSenderMessageKey` | rust/protocol/src/sender_keys.rs:246-254 | appends a key and keeps the newest 2000 |
| `SenderKeys.SenderKeyState.RemoveSenderMessageKey` | rust/protocol/src/sender_keys.rs:256-271 | returns and removes the key of an iteration, and only that one |
| `SenderKeys.SenderKeyState.GetSenderKey` | rust/protocol/src/group_cipher.rs:57-87 | the loop computes `TakeSenderKey`; result and state of every branch |
| `SenderKeys.SenderKeyStore.GroupEncrypt` | rust/protocol/src/group_cipher.rs:17-55 | store and result of every branch |
| `SenderKeys.GroupEncryptionOutcome` | rust/protocol/src/sender_keys.rs:55-63 | which bytes of which chain key's material encrypt a returned group message, who signed it, the state that is stored, and every error |
| `SenderKeys.GroupDecryptionOutcome` | rust/protocol/src/group_cipher.rs:89-122 | what `group_decrypt` refuses, in the order of its checks and with which error; success exactly if the newest state of the key id checks the signature and hands out a key that fits the body |
| `SenderKeys.DistributionOutcome` | rust/protocol/src/sender_keys.rs:316-336 | a processed distribution message becomes the front state with the announced values, in front of at most the four newest others |
| `SenderKeys.SenderKeyStore.GroupDecrypt` | rust/protocol/src/group_cipher.rs:89-122 | store and result of every branch |
| `SenderKeys.SenderKeyStore.ProcessDistribution` | rust/protocol/src/group_cipher.rs:124-146 | the new state in front, at most five |
| `SenderKeys.SenderKeyStore.CreateDistribution` | rust/protocol/src/group_cipher.rs:148-186 | creates a key only if there is none, and announces the front state |
| `GroupRuns.TakeSenderKeyRefines` | rust/protocol/src/group_cipher.rs:57-87 | `get_sender_key` answers as the counter window does and hands out the sender's own key |
| `GroupRuns.MemberHearsIff` | rust/protocol/src/group_cipher.rs:57-122 | until the fifth distribution message of other ids since it joined, a member gets the plaintext if and only if the iteration is in reach and unconsumed, and a duplicate for anything before its start; from then on there is no state for the id |
| `GroupRuns.GroupAuthenticity` | rust/protocol/src/group_cipher.rs:102-121 | a message accepted under the sender's key id was sent by the sender unaltered and was not accepted since the member joined |
| `GroupRuns.GroupStepKeepsInv` | rust/protocol/src/group_cipher.rs:17-186 | speaking, issuing, joining, joining again, learning other ids and hearing keep every member on the sender's chain |
| `GroupRuns.EveryMemberHears` | rust/protocol/src/group_cipher.rs:57-186 | in every run, for members who joined at any iteration and learned any other ids, `MemberHearsIff` holds |
| `GroupRuns.NoGroupReplay` | rust/protocol/src/group_cipher.rs:57-122 | no member accepts a message twice in a run in which it processes no further distribution message of that id |
| `GroupRuns.RejoiningResets` | rust/protocol/src/group_cipher.rs:124-146 | after a further distribution message of the id, issued at iteration `at`, a member accepts exactly the messages from `at` to 2000 beyond it, heard before or not |
| `GroupRuns.AnyOrderIsHeard` | rust/protocol/src/group_cipher.rs:71-86 | any order of up to 2001 consecutive messages is decrypted completely by a member that holds the state, wherever it is in the queue |
| `GroupRuns.IssuedIsCurrentKey` | rust/protocol/src/group_cipher.rs:177-185 | a distribution message carries the sender's key at the current iteration |
| `GroupRuns.DistributionShadows` | rust/protocol/src/sender_keys.rs:316-336 | lookups find the newest state of an id; the state of another id stays, one place further back, if and only if it was not the oldest of five |
| `GroupRuns.FailedGroupDecryptChangesNothing` | rust/protocol/src/group_cipher.rs:89-122 | a failed group decryption leaves the store unchanged |
| `Polyval.FoldDivides` | rust/aes-gcm-siv/src/polyval/polyval_clmul.rs:57-64 | one fold divides by x^64 modulo the field polynomial |
| `Polyval.ModulusIsFieldPolynomial` | rust/aes-gcm-siv/src/polyval/polyval_clmul.rs:35 | the constant stands for x^128 + x^127 + x^126 + x^121 + 1 |
| `Polyval.ClmulBlockIsDot` | rust/aes-gcm-siv/src/polyval/polyval_clmul.rs:34-67 | for all 128-bit inputs the block step is `dot` of section 3 of RFC 8452 |
| `Polyval.DotIsUnique` | rust/aes-gcm-siv/src/polyval/polyval_clmul.rs:34-67 | the congruence determines the 128-bit result, so `dot` is pinned down |
| `Polyval.PmulBlockIsClmulBlock` | rust/aes-gcm-siv/src/polyval/polyval_pmul.rs:41-73 | the PMULL form computes the same register |
| `Polyval.PolyvalIsUnique` | rust/aes-gcm-siv/src/polyval/polyval_clmul.rs:69-92 | the POLYVAL recursion determines the accumulator |
| `Polyval.PolyvalClmul.ProcessBlock` | rust/aes-gcm-siv/src/polyval/polyval_clmul.rs:34-67 | the straight-line register code is the block step |
| `Polyval.PolyvalClmul.Update` | rust/aes-gcm-siv/src/polyval/polyval_clmul.rs:69-78 | absorbs the blocks in order |
| `Polyval.PolyvalClmul.UpdatePadded` | rust/aes-gcm-siv/src/polyval/polyval_clmul.rs:80-92 | for data of any length the accumulator is POLYVAL of the zero-padded blocks |
| `GcmSiv.EncryptInPlace` | rust/aes-gcm-siv/src/aes.rs:48-81 | for every chunk size each block is encrypted in place and nothing else changes |
| `GcmSiv.DeriveKeys` | rust/aes-gcm-siv/src/aes_gcm_siv.rs:32-69 | both keys as section 4 of RFC 8452 derives them, or the nonce error |
| `GcmSiv.ComputeTag` | rust/aes-gcm-siv/src/aes_gcm_siv.rs:71-101 | the encrypted, masked digest of padded data, plaintext and lengths |
| `GcmSiv.DigestIsPolyval` | rust/aes-gcm-siv/src/aes_gcm_siv.rs:85-91 | the 16 bytes of the digest encode POLYVAL of those blocks |
| `GcmSiv.LoadAfterStoreReg` | rust/aes-gcm-siv/src/polyval/polyval_clmul.rs:94-96 | the stored bytes of the accumulator load back to it |
| `GcmSiv.Ctr32` | rust/aes-gcm-siv/src/aes_gcm_siv.rs:103-137 | eight-block pads in place equal byte-by-byte counter mode, including 32-bit wrap-around |
| `GcmSiv.CounterBlocksDiffer` | rust/aes-gcm-siv/src/aes_gcm_siv.rs:118-125 | no two of the first 2^32 blocks share a counter block |
| `GcmSiv.PermittedBuffersFit` | rust/aes-gcm-siv/src/aes_gcm_siv.rs:145-147 | a permitted buffer has at most 2^32 blocks |
| `GcmSiv.Encrypt` | rust/aes-gcm-siv/src/aes_gcm_siv.rs:139-154 | tag and buffer, or the error with the buffer unchanged |
| `GcmSiv.Decrypt` | rust/aes-gcm-siv/src/aes_gcm_siv.rs:156-187 | every outcome; a tag mismatch leaves the buffer all zero |
| `GcmSiv.OpenAfterSeal` | rust/aes-gcm-siv/src/aes_gcm_siv.rs:139-187 | decrypting an encryption accepts and restores the buffer, for any block function |
| `GcmSiv.SealAfterOpen` | rust/aes-gcm-siv/src/aes_gcm_siv.rs:139-187 | whatever decryption accepts is exactly what encryption produces from the result |
| `Rfc8452.LengthBlockIsLengths` | rust/aes-gcm-siv/src/aes_gcm_siv.rs:78-83 | the length block holds the bit length of the associated data in its low half and that of the plaintext in its high half |
| `Rfc8452.DigestIsRfc8452` | rust/aes-gcm-siv/src/aes_gcm_siv.rs:85-91 | the digest bytes are POLYVAL of the zero-padded little-endian numbers of both inputs and the two lengths |
| `Rfc8452.SealedIff` | rust/aes-gcm-siv/src/aes_gcm_siv.rs:32-154 | for every permitted input the tag and buffer of `encrypt` are exactly the encryption that sections 4 and 5 of RFC 8452 describe byte by byte: key derivation, masked digest, counter blocks |
| `Rfc8452.OpenedIff` | rust/aes-gcm-siv/src/aes_gcm_siv.rs:156-187 | `decrypt` accepts exactly those encryptions and returns their plaintext |
| `ConstantTime.MasksAreRight` | rust/protocol/src/utils.rs:8-26 | the branch-free masks are equality and unsigned order |
| `ConstantTime.ConstantTimeCmp` | rust/protocol/src/utils.rs:53-82 | the backward scan equals length-first lexicographic order |
| `ConstantTime.CompareIsLessIff` | rust/protocol/src/utils.rs:53-82 | the shorter input is less; of equally long ones, the one with the smaller byte at the first difference |
| `ConstantTime.CompareIsTotalOrder` | rust/protocol/src/utils.rs:53-82 | the order is total and its equality is equality |
| `ConstantTime.OrderAgreesWithAlice` | rust/protocol/src/ratchet.rs:148-150 | Alice is the side with the smaller byte at the first difference; this agrees with key order, and of two different keys exactly one side is Alice |
| `Hkdf.Expand` | rust/protocol/src/kdf.rs:66-89 | for version 3 and up to 255·32 bytes the result is T(1), T(2), ... of section 2.3 of RFC 5869, truncated |
| `Hkdf.OutputBlocksChain` | rust/protocol/src/kdf.rs:66-89 | every block of the RFC output is the HMAC of the block before it, the info and its number from 1 |
| `Hkdf.ShorterIsPrefix` | rust/protocol/src/kdf.rs:66-89 | shorter outputs are prefixes of longer ones |
| `Hkdf.CounterIsBlockNumberIff` | rust/protocol/src/kdf.rs:77-83 | the counter byte of a block is its number in RFC 5869 exactly for the first 255 blocks, and counter bytes repeat exactly beyond 256 blocks |
| `Hkdf.DeriveSaltedSecrets` | rust/protocol/src/kdf.rs:47-64 | extract, then expand; unknown versions fail |

## Left out

- Curve25519, XEdDSA, SHA-256, HMAC and AES internals: external crates, treated as symbolic terms or
  as parameters.
- Protobuf encoding, key decoding and length checks on stored bytes: records are values, so
  malformed stored records do not occur.
- AES-CBC under a wrong key is an error in the model, while real padding may accept it; in sessions
  the MAC is checked first, in groups the signature.
- The 8-byte truncation of message MACs: tags are compared as whole terms.
- The discontinuity bytes in front of the X3DH secrets: a constant that both sides prepend.
- Registration ids, fingerprints, device ids and error display: they take part in no hard property.
- `remote_registration_id` and `session_version`: accessors.
- Runs of a session after it was started a second time with the same secrets: `Replays.ReplayIff`
  and `Contact.RestartStrandsReplies` say when that happens and what it does to the next message.
- `World`, `Delivery` and `Contact` follow one address per user and bundles that name the peer's
  identity, and no third party that knows the secrets of a retained session; the other run theorems
  are over all addresses and all bundles.
- `PolyvalSoft`, the aarch64 AES intrinsics and CPU detection: library or hardware code; registers
  are modelled as 64-bit lanes.
- FFI, JNI, Node, Swift and Java layers: wrappers around the modelled core.
- Async scheduling: calls are sequential steps.
