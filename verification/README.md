# Verified model of hgw

hgw is a home gateway that upgrades itself by kexec, resets external devices over GPIO in
real time, ships its logs to Kafka and gives an SSH shell. This project models the parts of
it that hold state, run concurrently or define a format, and proves what they promise.
`dafny verify dfyconfig.toml` checks everything.

| file | models |
|---|---|
| `Common.dfy` | bytes, digests, options, hash collisions |
| `GpioEvents.dfy`, `GpioServer.dfy` | the reset server: legal histories of lines, deadlines and clock samples, and the loop that produces them |
| `Rendezvous.dfy` | the packet hand-over between any number of clients and the reset server |
| `ResetService.dfy` | both in one system: what a caller is told against what happened on its line |
| `KafkaProtocol.dfy`, `KafkaSink.dfy` | the log sink: the protocol of writers, consumer and Sync, and the routines that run it |
| `Layout.dfy`, `SignedLine.dfy`, `Kexec.dfy` | the sealed package: nested layout, signed line, sealing and unsealing |
| `Ocram.dfy` | the hand-off of the config through on-chip memory |
| `BootChain.dfy`, `KexecHandler.dfy` | upgrade attempts and boots: every interleaving, and the handler itself |
| `Rollback.dfy` | when a device can come to run an older version |
| `SshSupervisor.dfy`, `SshServer.dfy` | the dropbear supervisor and its kill handshake: every interleaving, and the loop itself |
| `Upgrade.dfy` | boot chain and supervisor in one system: when the normal handler can upgrade |
| `Base64.dfy`, `SerialLoader.dfy` | the serial configuration frame, its printer and its loader |

Concurrent parts are step systems: events with a guard (`Enabled`) and an effect (`Apply`),
and runs that are sequences of events each enabled in its turn. Theorems speak of every run.
The imperative routines keep a ghost log of the events they perform, and are proved to
produce runs, so that the theorems apply to them. Other goroutines, clocks, system calls
and devices are inputs: schedules, outcome flags and nondeterministic readings.

What is assumed of foreign code is stated where it is used: an AEAD opens what it seals
(`OpensWhatItSeals`), and JSON that Go accepts holds no zero byte (`JsonHasNoZero`, sections
2 and 7 of RFC 8259). Hashing, signature checks and JSON decoding are otherwise arbitrary
functions (`World`). A failed line ioctl leaves the line as it was, the monotonic clock does
not go back, and every line the kernel hands out has its own descriptor.

Findings:

- The repository's README promises that the emergency path enforces all checks of a hot upgrade. The code
  compares with version 1 instead of the running version. `RollbackIff` gives the exact condition:
  the next boot can run an older version if and only if some request opens, under the running key
  and at version 1, to an older package that can be staged and whose config is valid.
  `RollbackExample` spells a rollback out, and `VersionsNeverFall` says what still holds.
- If `Spawn` fails before it starts its goroutine (an undecodable host key is enough), nobody
  closes the completion channel: the first upgrade attempt then blocks for ever with the lock
  held. `PastIffKeyDecodes` gives the exact condition on the configuration,
  `SpawnFailureReachesDeadlock` the two steps that lead to the deadlock, and `NormalUpgradeIff`
  what it means for upgrades: the normal handler can install a package exactly when `Spawn` did
  not fail and the package passes its checks.
- On a 32-bit device a length prefix of 2^31 or more passes its check as a negative number
  and panics in the next slice; `SplitFields` and `Unseal` state exactly when, and
  `OverlongLengthPanics` gives such blobs for every key and nonce.
- `Sync` can return while messages that were counted before the call, the last step of their
  `Write`, are unsent. `SyncMissesIff` gives the exact condition: another writer stands between
  its enqueue and its increment. `SyncGuarantee` bounds how many are missed by the number of such
  writers, and `GuaranteeIsTight` shows that the bound is reached for every number.
- The serial loader accepts a frame without its closing marker when the stream ends inside it;
  `UnclosedFrameIff` says exactly when, `UnclosedFrameAccepted` gives the inputs.
- A reset line is left low without a scheduled release after a full heap or a failed release
  ioctl, and in no other case (`StuckLowIff`); the heap can fill up exactly when more than
  eight reset lines are configured (`OverflowIff`).

## Model

| member | source | states |
|---|---|---|
| `GpioServer.BuildLines` | homegw-rt/src/rt_task/gpio_server.rs:262-362 | the two tables hold exactly the usable pins' lines, each in the table of its function, and no descriptor occurs twice |
| `GpioServer.Peek` | homegw-rt/src/rt_task/gpio_server.rs:135-138 | the heap's contract: the entry given is a minimum by deadline, then descriptor |
| `GpioServer.GpioServer.constructor` | homegw-rt/src/rt_task/gpio_server.rs:97-113 | the server starts with an empty heap and the empty history |
| `GpioServer.GpioServer.BlinkLines` | homegw-rt/src/rt_task/gpio_server.rs:121-132 | exactly one blink ioctl for each blinking line, in order, to the high level in the odd passes and to the low level in the even ones |
| `GpioServer.GpioServer.ReleaseFirst` | homegw-rt/src/rt_task/gpio_server.rs:140-154 | the earliest due entry is released and popped whether or not its ioctl succeeds |
| `GpioServer.GpioServer.ReleaseDue` | homegw-rt/src/rt_task/gpio_server.rs:134-155 | the drain pops exactly the entries with deadline at or before the pass's sample, one release event each, and leaves the others in place |
| `GpioServer.GpioServer.Serve` | homegw-rt/src/rt_task/gpio_server.rs:169-205 | the one event of a request is determined by tables, heap and ioctl: unknown pin, already in reset, ioctl error, scheduled, or overflow; success means scheduled; with at most eight lines it never overflows |
| `GpioServer.GpioServer.ServeRequests` | homegw-rt/src/rt_task/gpio_server.rs:157-207 | requests are answered one by one in order; one is left over only when the clock has passed the slice's deadline |
| `GpioServer.GpioServer.Pass` | homegw-rt/src/rt_task/gpio_server.rs:115-208 | a pass adds to a legal history exactly one sample, one blink per blinking line at the level of the pass's parity, one release per due entry, and the answers, in this order |
| `GpioServer.GpioServer.Loop` | homegw-rt/src/rt_task/gpio_server.rs:115-209 | any number of passes is a legal history, so every theorem on histories holds of the server; the answers in that history are, one each and in order, those to the first of the requests that arrived, the others are waiting, and some are left waiting only when the last slice was used up |
| `GpioEvents.RunKeepsInv` | homegw-rt/src/rt_task/gpio_server.rs:99-204 | in every history heap, levels, clock and the last event of each line agree |
| `GpioEvents.QueueIsProper` | homegw-rt/src/rt_task/gpio_server.rs:99-204 | queued entries are at most eight, on distinct reset lines, none of which blinks |
| `GpioEvents.StuckLowIff` | homegw-rt/src/rt_task/gpio_server.rs:148-204 | a line driven low by a reset lacks a scheduled release if and only if its last reset overflowed the heap or its last release failed; a queued line is low |
| `GpioEvents.ReleaseInTime` | homegw-rt/src/rt_task/gpio_server.rs:134-155 | the next event on a scheduled line is its release, at least `hold` after it was driven low, in the first pass whose sample reaches the deadline |
| `GpioEvents.ResetHeldLow` | homegw-rt/src/rt_task/gpio_server.rs:115-204 | after a successful reset the line is low without interruption until that release; until then the release stays scheduled, is not due once a pass has drained, and before that late by less than one sampling gap |
| `GpioEvents.NoOverflow` | homegw-rt/src/rt_task/gpio_server.rs:99-204 | with at most eight reset lines no history contains a failed push |
| `GpioEvents.OverflowIff` | homegw-rt/src/rt_task/gpio_server.rs:99-204 | some history, of whole passes with their blinks and within one slice, contains a failed push if and only if there are more than eight reset lines |
| `GpioEvents.ClockIsHistory` | homegw-rt/src/rt_task/gpio_server.rs:115-121 | pass count, current and previous sample, longest gap and latest time are what the history says, for every history |
| `GpioEvents.RepliesInSlice` | homegw-rt/src/rt_task/gpio_server.rs:157-158 | every answer is begun less than 4 ms after its pass's sample |
| `GpioEvents.EveryPassBlinks` | homegw-rt/src/rt_task/gpio_server.rs:121-155 | before anything is released or served in a pass every blinking line has had its ioctl, once and in order |
| `GpioEvents.BlinkingLevel` | homegw-rt/src/rt_task/gpio_server.rs:121-132 | a blinking line is at the level that the last successful ioctl on it set; no reset moves it |
| `GpioEvents.BlinkFollowsPass` | homegw-rt/src/rt_task/gpio_server.rs:121-132 | every blink ioctl asks for high exactly when the number of samples so far is odd, and on success the line is at that level |
| `GpioEvents.BlinksAlternate` | homegw-rt/src/rt_task/gpio_server.rs:120-132 | the ioctls of successive passes ask for opposite levels |
| `Rendezvous.RunKeepsInv` | homegw-rt/src/rt_task/gpio_server.rs:44-63 | mutex, packet, socket, server and counters agree in every reachable state |
| `Rendezvous.PacketsAreSafe` | homegw-rt/src/rt_task/gpio_server.rs:158-220 | at most one packet is live, and the server reads and writes one only while its client is still in its closure, even though addresses are reused |
| `Rendezvous.ExactlyOnce` | homegw-rt/src/rt_task/gpio_server.rs:158-220 | every finished request was received once and completed once on every branch, and answered true exactly when the server stored true |
| `Rendezvous.ServerCanStep` | homegw-rt/src/rt_task/gpio_server.rs:158-220 | while a client sleeps the server has a step to take |
| `Rendezvous.WakeupNears` | homegw-rt/src/rt_task/gpio_server.rs:211-220 | no step of anyone moves a sleeper farther from its wakeup, and every server step brings it nearer |
| `Rendezvous.NoLostWakeup` | homegw-rt/src/rt_task/gpio_server.rs:56-61 | in every run a sleeping client is woken within five further server steps, and the server is never stuck before that |
| `ResetService.RunKeepsInv` | homegw-rt/src/rt_task/gpio_server.rs:44-204 | requests, packets, outcomes and the history of the lines agree in every reachable state of clients and server together |
| `ResetService.ServerCanAnswer` | homegw-rt/src/rt_task/gpio_server.rs:157-205 | a request that the server has received can always be answered within its slice |
| `ResetService.OkMeansReset` | homegw-rt/src/rt_task/gpio_server.rs:44-204 | every request that has returned has one event of its own in the history, and returned true if and only if that event drove the line of its pin low and scheduled its release a second later; then the line was held low until a release in time; otherwise it was refused, or its line is low and the heap was full |
| `ResetService.ResetsAreAskedFor` | homegw-rt/src/rt_task/gpio_server.rs:157-205 | every reply in the history, and so every lowering of a line, is the answer to a request for its pin |
| `ResetService.ResetCanSucceed` | homegw-rt/src/rt_task/gpio_server.rs:169-220 | a received request for a configured pin whose line is not in reset, with room in the heap, can be answered by a scheduled reset, and then returns true |
| `KafkaSink.Sink.Write` | homegw-libs/kafka-sink/lib.go:139-148 | an accepted message goes to the end of the accepted ones and is counted when the call returns; a full queue changes nothing and is reported |
| `KafkaSink.Sink.Sync` | homegw-libs/kafka-sink/lib.go:150-157 | it returns at the first poll that finds as many completed as were issued at the call, and gives up only when the schedule is used up; when it returns, all messages accepted before the call but the racing ones are acknowledged |
| `KafkaSink.Sink.Poll` | homegw-libs/kafka-sink/lib.go:151-154 | the polls before the last found the count too small, the last found it reached or was the end of the schedule |
| `KafkaSink.Sink.Append` | homegw-libs/kafka-sink/lib.go:56-60 | the next message is taken from the queue and goes to the end of buffer and batch |
| `KafkaSink.Sink.Fill` | homegw-libs/kafka-sink/lib.go:49-66 | the buffer grows to 256 KiB or until the queue is empty, and holds what was queued in its order |
| `KafkaSink.Sink.CollectBatch` | homegw-libs/kafka-sink/lib.go:42-66 | the buffer is the batch's messages in order; the batch was below 256 KiB before its last message, and below 256 KiB at the end only if it took everything queued |
| `KafkaSink.Sink.SendBatch` | homegw-libs/kafka-sink/lib.go:68-85 | every failed attempt is repeated: the broker receives one copy for each attempt that reached it, the batch is acknowledged once and its messages are counted once |
| `KafkaSink.Sink.ConsumeRound` | homegw-libs/kafka-sink/lib.go:38-88 | a round blocks exactly on an empty open queue and ends exactly on an empty closed one; otherwise it acknowledges and counts one batch whose payload is its messages, all that were queued if it stays below 256 KiB |
| `KafkaSink.JoinedSplit` | homegw-libs/kafka-sink/lib.go:56-60 | a payload is its messages one after the other |
| `KafkaSink.BytesInOrder` | homegw-libs/kafka-sink/lib.go:38-88 | in every state the payloads acknowledged, the batch in hand and the queue are, end to end, the bytes written |
| `KafkaProtocol.RunKeepsInv` | homegw-libs/kafka-sink/lib.go:20-90 | queue, batch, counters, broker log and Sync calls agree in every reachable state |
| `KafkaProtocol.NothingLostOrReordered` | homegw-libs/kafka-sink/lib.go:38-88 | acknowledged batches, batch in hand and queue are the accepted messages in order; in every state the broker saw each acknowledged batch at least once, in order, repeated only right after itself, and then nothing but attempts at the batch being sent; `completed` never runs ahead; every batch was below 256 KiB before its last message; at most 1024 messages are queued |
| `KafkaProtocol.BatchesAreMaximal` | homegw-libs/kafka-sink/lib.go:49-66 | whenever a batch is sealed it has reached 256 KiB or the queue is empty |
| `KafkaProtocol.ExitMeansDrained` | homegw-libs/kafka-sink/lib.go:42-45 | the consumer exits only when closed with everything acknowledged and counted |
| `KafkaProtocol.SyncGuarantee` | homegw-libs/kafka-sink/lib.go:150-157 | if p writers are between enqueue and increment at the load, then on return all messages accepted before it but at most the last p are acknowledged; all of them if p = 0 |
| `KafkaProtocol.GuaranteeIsTight` | homegw-libs/kafka-sink/lib.go:140-157 | for every p some run returns from Sync with exactly the last p messages unacknowledged, all of them counted before the load |
| `KafkaProtocol.SyncMissesIff` | homegw-libs/kafka-sink/lib.go:140-157 | some run with p writers between enqueue and increment at the load returns from Sync while a message counted before the load is unacknowledged, if and only if p > 0 |
| `KafkaProtocol.SyncCanReturn` | homegw-libs/kafka-sink/lib.go:150-157 | from every reachable state the consumer's steps alone, boundedly many, bring a pending Sync to its return |
| `Layout.LayoutUnique` | homegw-libs/kexec/lib.go:173-196 | bytes are the layout of at most one pair of fields |
| `Layout.LayoutIff` | homegw-libs/kexec/lib.go:173-196 | bytes are a layout if and only if each field stands behind its length in four bytes, low byte first, with nothing after the second and both lengths within the limit |
| `Layout.SplitFields` | homegw-libs/kexec/lib.go:49-70 | the cursor steps invert the printer: they deliver the two fields exactly when the bytes are their layout within the limit with nothing left over, and slice out of range exactly when the first length overflows a 32-bit int |
| `SignedLine.HexRoundTrip` | kexec-sealer/main.go:64-64 | hexadecimal text decodes to the bytes it was made of |
| `SignedLine.HexDigitsAt` | kexec-sealer/main.go:64-64 | two digits of 0-9a-f for each byte, the high half first |
| `SignedLine.ParseLineExact` | homegw-libs/kexec/lib.go:29-29 | a line matches if and only if it is 64 hex digits of the digest, two spaces and a non-empty name |
| `SignedLine.PayloadParses` | kexec-sealer/main.go:63-65 | the sealer's line reads back to the same digest and file name, for every digest |
| `SignedLine.PayloadIs` | kexec-sealer/main.go:63-65 | the line is the digest in hexadecimal, two spaces and the fixed file name |
| `Kexec.PrepareData` | kexec-sealer/main.go:56-65 | the data is the layout of kernel and config, and the line to sign names its digest |
| `Kexec.SealPackage` | kexec-sealer/main.go:73-82 | the blob is magic, nonce and the sealed layout of signature and data |
| `Kexec.DecryptAndVerify` | homegw-libs/kexec/lib.go:88-231 | data is delivered exactly when the envelope is authentic, a given bundle having been verified first; it panics exactly when the signature length overflows |
| `Kexec.OpenData` | homegw-libs/kexec/lib.go:49-85 | data opens exactly when it is a layout of a kernel and a config of at least the running version |
| `Kexec.Unseal` | homegw-libs/kexec/lib.go:43-86 | a blob opens exactly when some package passes every check, and to that package; exactly when it panics instead of refusing |
| `Kexec.OpensUnique` | homegw-libs/kexec/lib.go:43-86 | a blob opens to at most one package |
| `Kexec.OpensIff` | homegw-libs/kexec/lib.go:43-231 | a blob opens to a package if and only if it has the magic bytes, its ciphertext is intact, both layouts are right, a verified bundle or a verified clear-signed first line vouches for the data, and the version is at least the running one |
| `Kexec.EnvelopeOverflowsIff` | homegw-libs/kexec/lib.go:173-184 | the outer reader panics if and only if, on a 32-bit device, a decrypted plaintext begins with a length of 2^31 or more |
| `Kexec.DataOverflowsIff` | homegw-libs/kexec/lib.go:49-58 | the inner reader panics if and only if, on a 32-bit device, authentic data begins with a length of 2^31 or more |
| `Kexec.SealedPackageOpens` | homegw-libs/kexec/lib.go:152-196 | every kernel and config within the length bounds come back unchanged through both nested layouts |
| `Kexec.BundledPackageOpens` | homegw-libs/kexec/lib.go:91-196 | the same on the external path, given a bundle that verifies over the blob |
| `Kexec.OverlongLengthPanics` | homegw-libs/kexec/lib.go:175-184 | under every key and nonce a sealed plaintext whose first length is 2^31 or more overflows the envelope of a 32-bit device, no signature needed |
| `Kexec.SignedLineBinds` | homegw-libs/kexec/lib.go:198-229 | two packages accepted under the same first signed line are equal or exhibit a hash collision |
| `Kexec.SignatureLineExact` | homegw-libs/kexec/lib.go:209-227 | a signature names data if and only if its first line is the sealer's line for that data |
| `Ocram.WriteConfigToOcram` | homegw-init/ocram.go:38-60 | the region becomes digest, config, zero and the old rest, exactly when the config fits and the device opens and maps; otherwise it is unchanged |
| `Ocram.DumpAndEraseOcram` | homegw-init/ocram.go:62-82 | the whole old content is returned and the region is all zero |
| `Ocram.LoadConfigFromOcram` | homegw-init/ocram.go:15-36 | the text up to the first zero is returned exactly when its digest matches, and the region is all zero |
| `Ocram.WrittenShape` | homegw-init/ocram.go:55-58 | a written region is the digest, the config, a zero and the old rest, in this order |
| `Ocram.FitsExactly` | homegw-init/ocram.go:38-41 | a config fits exactly up to 124 KiB less 33 bytes |
| `Ocram.LoadedIff` | homegw-init/ocram.go:15-36 | a region yields a config if and only if that is the text before its first zero, or the empty text without one, and its digest stands first |
| `Ocram.HandOffExact` | homegw-init/ocram.go:15-60 | a zero-free config that fits is loaded unchanged, over any earlier content |
| `Ocram.HandOffSound` | homegw-init/ocram.go:15-60 | for any written config a successful load returns it or exhibits a hash collision |
| `Ocram.HandOffIff` | homegw-init/ocram.go:15-60 | a written config is loaded back if and only if it holds no zero byte |
| `Ocram.WipedLoadsNothing` | homegw-init/ocram.go:62-82 | after a load the region yields no config, unless the empty text hashes to zeros |
| `BootChain.RunKeepsInv` | homegw-init/http.go:331-449 | lock, attempts, on-chip memory, loaded kernel and boots agree in every reachable state |
| `BootChain.RunKeepsHistory` | homegw-init/http.go:333-449 | in every reachable state each attempt past unsealing, and each kexec boot, goes back to one request that was opened by the handler then running, since the boot before |
| `BootChain.RebootIsPaired` | homegw-init/http.go:403-449 | whenever an attempt can reboot, loaded kernel and saved config are those of the package it unsealed, under the running configuration's key and any interleaving of other attempts |
| `BootChain.KeyIff` | homegw-init/main.go:129-139 | a booted config enables upgrades under a key if and only if it is valid and its key text decodes to exactly that key of 32 bytes; without a key text they are disabled |
| `BootChain.HandlersOpen` | homegw-init/emergency_kexec.go:63-63 | the normal handler opens at the version it runs, the emergency handler at version 1, each under its key, and none without one |
| `BootChain.FallsBackOnce` | rootfs/init2:32-33 | a dead normal handler is followed by the emergency handler with its key, a dead emergency handler by nothing, and a device that stands still needs power |
| `BootChain.BootsAreVetted` | homegw-init/http.go:357-449 | every boot of every run goes back to a request of that run, opened since the boot before under the key of the handler then running; it loads kernel and config of that one package, of at least the running version through the normal handler and at least 1 through the emergency handler, and runs that config's version and key |
| `BootChain.KeysAreChained` | homegw-init/main.go:129-146 | whatever boot came before a kexec boot, cold or kexec, the package was opened, by either handler, under the key in the config of the boot before |
| `BootChain.VersionsNeverFall` | homegw-init/http.go:357-449 | along any stretch of boots by the normal handler the version never falls |
| `Rollback.EmergencyRollsBack` | homegw-init/emergency_kexec.go:25-123 | from every normally running state with a key the next boot can be a kexec into any authentic package of version 1 or more under that key that can be staged |
| `Rollback.OlderBootIff` | homegw-init/emergency_kexec.go:63-123 | from every normally running state the next boot can be a kexec into a given older package if and only if some request opens to it under the running key at version 1, its kernel is not empty and its config fits |
| `Rollback.SomeOlderBootIff` | homegw-init/emergency_kexec.go:63-123 | the same for the existence of such a package |
| `Rollback.RollbackIff` | homegw-init/emergency_kexec.go:63-123 | from every normally running state the next boot can run an older version if and only if such a package exists whose config is valid |
| `Rollback.RollbackExample` | homegw-init/emergency_kexec.go:63-123 | a concrete world and run, under any key: a device booted with a config of version 9 ends up running version 5 through the emergency handler |
| `KexecHandler.Gateway.constructor` | homegw-init/main.go:141-151 | the handler starts unlocked on a device freshly booted with its config |
| `KexecHandler.Gateway.TryLock` | homegw-init/http.go:339-343 | the lock is taken afterwards; this request has it exactly when it was free, and is gone otherwise |
| `KexecHandler.Gateway.Admit` | homegw-init/http.go:339-402 | the request is turned away exactly when the lock is taken, and otherwise admitted exactly when it announces at most 128 MiB, its blob was read and opens under the handler's key |
| `KexecHandler.Gateway.LoadImage` | homegw-init/http.go:409-424 | the kernel is loaded exactly when it is not empty and the kernel accepts it; otherwise the lock is released |
| `KexecHandler.Gateway.Stage` | homegw-init/http.go:403-424 | config saved and kernel loaded exactly when no step fails; otherwise the lock is released |
| `KexecHandler.Gateway.Restart` | homegw-init/http.go:426-449 | the new kernel is the package's and takes over the package's config, and the region is wiped; a failed reboot ends the process |
| `KexecHandler.Gateway.Install` | homegw-init/http.go:403-449 | of saving, loading and rebooting the first failure decides: the attempt ends, or the process dies; only without one the package boots |
| `KexecHandler.Gateway.HandleKexec` | homegw-init/http.go:333-449 | a request is refused as disabled exactly without a key and as busy exactly when the lock is taken; it reboots exactly when the lock is free, the blob opens under the handler's key and threshold and nothing fails, and then into that package; otherwise nothing boots and the lock is free again |
| `SshSupervisor.RunKeepsInv` | homegw-init/ssh.go:114-149 | supervisor, processes, watchers, channels and attempts agree in every reachable state |
| `SshSupervisor.PastMeansQuiet` | homegw-init/http.go:364-370 | an attempt is past the SSH step only after the supervisor has ended, every dropbear reaped but perhaps a last one sent SIGKILL, the kill channel closed once |
| `SshSupervisor.QuietForever` | homegw-init/ssh.go:114-149 | after completion no dropbear is ever started |
| `SshSupervisor.NotKilledEarly` | homegw-init/ssh.go:123-135 | no dropbear is sent SIGKILL before an upgrade asks, except one whose start-up failed, which ends the supervisor |
| `SshSupervisor.AtMostOneMore` | homegw-init/ssh.go:114-149 | after the kill channel closes at most one more dropbear is started, and its watcher has killed it or can |
| `SshSupervisor.NotStuck` | homegw-init/ssh.go:114-149 | after the kill channel closes some internal step is possible until the supervisor has ended, without waiting for a process that was not killed |
| `SshSupervisor.BoundedAfterKill` | homegw-init/ssh.go:114-149 | after the kill channel closes only boundedly many internal steps remain in every run |
| `SshSupervisor.AwaitingCanProceed` | homegw-init/http.go:366-370 | a waiting attempt can still get past, from every reachable state, unless `Spawn` failed early |
| `SshSupervisor.DeadlockAfterSpawnFailure` | homegw-init/ssh.go:44-52 | if `Spawn` failed early, the waiting attempt holds the lock for ever |
| `SshSupervisor.PastIffAnswered` | homegw-init/main.go:112-123 | some attempt can get past the SSH step if and only if `Spawn` did not fail early |
| `SshSupervisor.SpawnFailureReachesDeadlock` | homegw-init/ssh.go:23-52 | if `Spawn` failed early, two steps lead to a state in which an attempt waits holding the lock, in every continuation |
| `SshSupervisor.PastIffKeyDecodes` | homegw-init/main.go:112-123 | an attempt can get past the SSH step if and only if no SSH server is configured or its host key decodes and pipe and memory file were given; any foreign character in the key prevents it |
| `SshServer.Server.RunOnce` | homegw-init/ssh.go:54-112 | exactly when start and tracing succeed the supervisor waits for the new process; otherwise it ends, and a process that was started has been sent SIGKILL |
| `SshServer.Server.CheckAndSleep` | homegw-init/ssh.go:140-146 | after a process is reaped the supervisor ends exactly by seeing the kill channel closed, and always if it was closed before |
| `SshServer.Server.TakeTurn` | homegw-init/ssh.go:117-148 | a turn ends in waiting for a live process, in the end for one of the reasons there are, or comes round with its process reaped, which it never does once the kill channel was closed |
| `SshServer.Server.TakeTurns` | homegw-init/ssh.go:117-148 | turn after turn starts a process of its own; every one but the last is reaped, and the loop stops early only in a wait or at its end |
| `SshServer.Server.Supervise` | homegw-init/ssh.go:114-149 | the loop takes all its turns unless it waits or has ended; when it has ended every process is reaped or was sent SIGKILL; at most one start follows the kill |
| `Upgrade.RunsChain` | homegw-init/http.go:331-449 | every run of handlers and supervisor together is a run of the boot chain, so every theorem on boots holds of it |
| `Upgrade.RunKeepsInv` | homegw-init/http.go:331-449 | attempts stand with the supervisor as their stages say, and every boot's supervisor is set up as its config says, in every reachable state |
| `Upgrade.RebootIsQuiet` | homegw-init/http.go:364-449 | wherever a reboot through the normal handler is possible the supervisor has ended, and every dropbear is reaped or was sent SIGKILL |
| `Upgrade.NormalBootsNeedHostKey` | homegw-init/main.go:112-123 | every boot through the normal handler follows a boot whose config has a host key that decodes, or none |
| `Upgrade.NormalUpgradeIff` | homegw-init/http.go:333-449 | whenever the lock is free the next boot can be a kexec into a given package by the normal handler if and only if `Spawn` did not fail at the last boot and the package opens for the handler and can be staged |
| `Base64.RoundTrip` | homegw-init/bootstrap.go:109-119 | decoding what was encoded gives the same bytes, for every byte string |
| `Base64.SymbolsAreStandard` | scripts/gen_config_text.sh:8-10 | the 64 symbols are those of RFC 4648 in its order |
| `Base64.EncodesAsStandard` | scripts/gen_config_text.sh:8-10 | three bytes give four symbols, high bits first; one or two left over are padded |
| `Base64.DecodesIff` | homegw-init/bootstrap.go:109-119 | a text decodes to bytes if and only if, line ends apart, it spells them in quanta of four, the last perhaps padded with free spare bits |
| `Base64.LineEndsIgnored` | homegw-init/bootstrap.go:109-119 | carriage returns and newlines do not matter, wherever they stand |
| `Base64.ForeignCharRejected` | homegw-init/bootstrap.go:119-123 | a text with any foreign character does not decode |
| `SerialLoader.WrapJoins` | scripts/gen_config_text.sh:10-10 | rows are 80 wide, the last perhaps narrower but not empty, and join to the text |
| `SerialLoader.DataIsNoMarker` | scripts/gen_config_text.sh:7-12 | no base64 line can be taken for a marker |
| `SerialLoader.LoadConfigFromGs0` | homegw-init/bootstrap.go:85-132 | the nested loops compute what a three-state automaton over lines computes |
| `SerialLoader.NoiseIsSkipped` | homegw-init/bootstrap.go:90-94 | lines without an opening marker leave the loader waiting |
| `SerialLoader.AnyFrame` | homegw-init/bootstrap.go:96-131 | any digest line and rows between markers are accepted with the bytes the rows decode to exactly when the digest line decodes to their digest; otherwise the loader is waiting again |
| `SerialLoader.FrameRoundTrip` | homegw-init/bootstrap.go:96-131 | a waiting loader accepts every printed frame with the same bytes |
| `SerialLoader.UnclosedFrameAccepted` | homegw-init/bootstrap.go:102-131 | a printed frame is accepted with the same bytes even if the stream ends before its closing marker |
| `SerialLoader.FrameSwallowed` | homegw-init/bootstrap.go:96-128 | a frame that arrives inside another brings the loader back to waiting |
| `SerialLoader.Stabilises` | homegw-init/bootstrap.go:85-132 | after any lines that were not accepted, one good frame is accepted if and only if the loader was waiting, and the second always is |
| `SerialLoader.EarlyAcceptStands` | homegw-init/bootstrap.go:130-131 | what earlier lines made the loader accept is the result whatever follows |
| `SerialLoader.ClosedFrameIff` | homegw-init/bootstrap.go:90-131 | the loader accepts before the end of the stream if and only if a frame for the config begins at a line where it was waiting |
| `SerialLoader.UnclosedFrameIff` | homegw-init/bootstrap.go:101-131 | the loader accepts a config without a closing marker if and only if an open frame for it runs from a line where it was waiting to the end of the stream |
| `SerialLoader.LoadIff` | homegw-init/bootstrap.go:85-132 | whatever surrounds it, a config is loaded if and only if one of the two holds: marker, its own digest, rows that decode to it, then the closing marker or the end of the stream |

## Left out

- KafkaProtocol.SyncGuarantee: counters are unbounded, so the wrap of the 64-bit counters after 2^64 messages is not modelled.
- KafkaSink.Sink.Write: a write or a second close after `Close` panics in Go; the sink's callers must not do it, and the model excludes it.
- SshSupervisor and Rendezvous: the watcher goroutine and the client's wait loop exist as steps only, not as routines of their own.
- SshSupervisor: the kernel's reuse of process ids; a watcher that fires late could signal a new group with the old number.
- KexecHandler.Gateway: killing user processes and unmounting are one step without effect on the model's state; the wait on the SSH channels is in `SshSupervisor` and `Upgrade`.
- BootChain: request authentication and the kernels' own code; every booted kernel is taken to run these handlers on a new root file system, where the key file is written as soon as the config is read.
- BootChain: a configured key of more than 32 bytes, which ends the process in the normal handler's set-up, counts as no key.
- SerialLoader: shell expansion before the script's pipeline (trailing newlines, zero bytes) and the splitting of serial input into lines; a line over the scanner's limit counts as the end of the stream.
- GpioServer: flags and initial levels of requested lines, the pass count's wrap (it keeps the parity), and malformed datagrams, on which the server panics.
- Scheduling guarantees: the longest gap between passes is a quantity of the history, not derived from the scheduler's parameters.
- The cosign branch beyond one yes-or-no answer, and all cryptography and JSON decoding.
- Routing, authentication, QUIC, SSH relay, vehicle API, WireGuard, network interfaces, disks, TFTP, sysctl, permissions and the memory-pressure killer: plumbing without a hard property.
