# ZenithPanel verification

A Dafny model of the transactional parts of the ZenithPanel backend, with proofs
of what they promise.  `dafny verify dfyconfig.toml` checks all of it.

## What is modelled

- **Proxy runtime** (`proxy_engine.dfy`, `runtime_transition.dfy`,
  `runtime_interleaving.dfy`, `external_runtime.dfy`, `engine_choice.dfy`): the two-phase transition
  that snapshots, validates, stops, starts, verifies and rolls back, once as a
  class whose every call may fail, once as a state machine of any number of
  callers and engines with crashes and cancellation, and once in its external
  form with files, a revision marker and a database commit.
- **Smart Deploy** (`deploy_log.dfy`, `deploy_orchestrator.dfy`): the write-ahead
  operation log.  `Orchestrator.Valid` says that every effect still in place has a
  row written before it, that an inbound a row created is in the table only while
  that row is in place, that at most one such row says neither applied nor
  revert-failed, and that a rolled-back deployment has nothing left to revert;
  every primitive keeps it, so it holds at every step of every run.
- **Share links** (`go_text.dfy`, `base64.dfy`, `percent.dfy`, `link_url.dfy`,
  `csv.dfy`, `json_text.dfy`, `share_links.dfy`, `share_link_round_trips.dfy`,
  `server_credentials.dfy`, `api_token.dfy`): the printer of the subscription
  service, the parser of the self-test, the text codecs between them (sections 4
  and 5 of RFC 4648, sections 2.1 and 3.2 of RFC 3986, section 7 of RFC 8259,
  section 4 of RFC 3629), the credentials the generated servers install, and the
  API token format.
- **Firewall** (`firewall_chain.dfy`, `firewall.dfy`): the INPUT chain as a rule
  list with first-match verdicts, and the commands that edit it.
- **Smaller state** (`routing_rules.dfy`, `ring_buffer.dfy`,
  `subscription_cache.dfy`, `admin_sessions.dfy`, `dual_stack_nodes.dfy`,
  `client_import.dfy`).

Failures of I/O, processes, the database and commands are nondeterministic
choices inside the methods; a parameter `calm` says that none happens during the
call, so that contracts also say when a call succeeds.  Time is a parameter or a step of a state machine.
Go strings are strings of characters below 256.  Uninterpreted parts are
parameters: which bracketed texts are IPv6 addresses, the checksum of a token,
which addresses are IP literals, how JSON objects with other members than
strings read.  Digests of a revision
are taken as injective, so a revision is the hashed list itself.

## What the code does differently from what one might expect

Each of these is a theorem or a concrete counterexample below.

- A failed stop during a rollback can leave two engines on one port, exactly when
  the plan gives one engine a port that another engine serves at that moment.
- The readiness check of external mode does not take the gate and is wrong while
  changed engines are being written; a restore that brings the marker back and
  fails for a file of the stored revision leaves a ready marker over foreign files.
- A rollback of a deployment does not give back a file that could not be read
  when the deployment wrote it (it is deleted), or that is not UTF-8 (the row
  holds it as JSON text).
- A failed query of the inbounds makes EnsurePanelPortsOpen close the ports of
  all of them.
- The generators drop the errors of their queries; the listener probes of an apply
  notice a missing inbound only where nothing else listens on its port.
- A transition that is not forced leaves an engine alone that runs something else
  than its file says, when the file is already the wanted one.
- A retried deployment rollback can put an intermediate version of a file back
  for good, exactly when two operations recorded different contents for it.
- `Apply` returns an error with the whole deployment live when only the final
  status could not be saved.
- A vless credential is printed without escaping; hysteria2, trojan and tuic
  credentials are cut at their first colon; vmess links replace what is not UTF-8,
  and their REALITY form loses the ALPN list and the insecure flag; the "http"
  network loses path and host.
- A hysteria2 obfuscation password without a type is installed on the server but
  missing from the link; a client without a key on a 2022 cipher gets a link the
  server refuses; shadowsocks settings without a method get a link for
  aes-256-gcm and a server without a method.
- An API token has sixteen accepted spellings.
- A port the panel opened for a listener cannot be protected by the Cloudflare
  rules; an accept rule for one source, or one behind the catch-all, counts as an
  open port.  The comment on
  `staleManagedRules` speaks of ACCEPT rules; the code prunes managed rules of any
  target, and so does the model.
- Routing rules share a signature although they differ exactly when their fields
  hold different numbers of bar characters under one signature.
- A request let in before "log out everywhere" can still commit a change after it.
- A subscription build in flight survives an invalidation.

## Model

| member | source | states |
|---|---|---|
| `ProxyEngine.FilterInbounds` | backend/internal/service/proxy/xray.go:154-165 | the filtering loop of both generators yields exactly the rows the engine keeps under its mode |
| `ProxyEngine.KeptIsFilter` | backend/internal/service/proxy/singbox.go:41-55 | a row is in an engine's configuration if and only if it is enabled and the engine keeps its protocol under the mode |
| `ProxyEngine.DualModePartitions` | backend/internal/service/proxy/singbox.go:41-55 | in dual mode the Xray and sing-box configurations split the enabled rows: each row is in exactly one |
| `ProxyEngine.RestoredSnapshotIsIdentity` | backend/internal/service/proxy/runtime.go:121-130 | restoring a snapshot of a coherent engine is the identity on file, process and mode |
| `ProxyEngine.Engine.TakeSnapshot` | backend/internal/service/proxy/runtime.go:121-130 | the snapshot is the engine's file, running flag and mode; a live engine without a readable file is an error |
| `ProxyEngine.Engine.Prepare` | backend/internal/service/proxy/runtime.go:131-158 | a candidate is the configuration for the wanted mode, and the engine's own mode is unchanged whatever happens |
| `ProxyEngine.Engine.Stop` | backend/internal/service/proxy/core.go:396-425 | a stop never touches file or mode, kills at most, and succeeds only when the process is gone |
| `ProxyEngine.Engine.Start` | backend/internal/service/proxy/runtime.go:167-176 | a start refuses a live engine and otherwise reaches file = process = candidate, or leaves no process |
| `ProxyEngine.Engine.Restore` | backend/internal/service/proxy/runtime.go:178-193 | a restore reaches the snapshot exactly, or leaves no process that was not there before |
| `RuntimeTransition.Preflight` | backend/internal/service/proxy/runtime.go:269-292 | preflight changes no engine, and on success each target agrees with its engine and the revision is the hash of all candidates |
| `RuntimeTransition.StopChanged` | backend/internal/service/proxy/runtime.go:318-325 | after the stop loop every changed engine is down, engines already in place are exactly as before |
| `RuntimeTransition.StartWanted` | backend/internal/service/proxy/runtime.go:326-333 | after the start loop every changed wanted engine runs its candidate from its own file in the wanted mode |
| `RuntimeTransition.Rollback` | backend/internal/service/proxy/runtime.go:293-317 | without errors every changed engine equals its snapshot, though both loops run past failures |
| `RuntimeTransition.TransitionRuntime` | backend/internal/service/proxy/runtime.go:269-338 | for any distinct engines, in step with their files or not, and any failures: no revision means nothing was touched, success means each touched engine runs iff wanted with its candidate, rolled back means file, running flag and mode of every engine are those of its snapshot, and its process too if it ran its file; an engine in place is never touched; when nothing fails, engines in step with their files succeed if and only if every probed port belongs to a wanted configuration or a foreign process, and are otherwise rolled back |
| `RuntimeTransition.WantedEngines` | backend/internal/service/proxy/runtime.go:585-607 | an engine is wanted if and only if some enabled inbound is assigned to it by the mode, where assignment is spelled out on mode and protocol names |
| `RuntimeTransition.CommittedServesExactly` | backend/internal/service/proxy/xray.go:154-165 | a committed engine serves, of the enabled inbounds, exactly those its mode assigns to it and its generator, which drops the errors of its queries, got from the database |
| `RuntimeTransition.Verify` | backend/internal/service/proxy/runtime.go:641-655 | verification succeeds only if an engine or a foreign process listens on every probed port |
| `RuntimeTransition.ProbedPorts` | backend/internal/service/proxy/runtime.go:645-655 | probed are exactly the ports of the enabled inbounds that the mode assigns to an engine |
| `RuntimeTransition.ProbesFindTheMissed` | backend/internal/service/proxy/runtime.go:641-655 | where every enabled inbound has a port of its own, an applied transition serves every enabled inbound as its mode prescribes, although the generators drop the errors of their queries: a missed inbound fails its probe |
| `RuntimeTransition.Coordinator.ApplyRuntime` | backend/internal/service/proxy/runtime.go:565-674 | for engines in step with their files or not, the reported state is truthful: failed touched nothing, rolled back restored files, running flags and modes (and processes that ran their files), applied serves every enabled inbound its generator got as prescribed, with a listener on the port of each, except by an engine that looked in place while running something else, which is exactly as it was; the assignment is spelled out on mode and protocol names; when nothing fails and the engines run their files, it succeeds if and only if every assigned inbound gets a listener on its port |
| `RuntimeTransition.GotReachesAll` | backend/internal/service/proxy/runtime.go:641-674 | that is the case whenever each generator gets the inbounds assigned to its engine |
| `EngineChoice.SupportedIffOnXray` | backend/internal/service/proxy/xray.go:31-45 | the coordinator sends to Xray exactly the kinds of inbound that the Xray generator builds |
| `EngineChoice.ProtocolIsScheme` | backend/internal/service/sub/generator.go:1090-1110 | the protocol column of an inbound is the scheme of its links, except that shadowsocks links have a shorter one |
| `EngineChoice.AppliedByKind` | backend/internal/service/proxy/runtime.go:585-607 | after an applied transition of engines that were not stale, an inbound that its generator got is served with Xray alone if and only if Xray can, in auto mode by Xray if it can and else by sing-box, with sing-box alone by that one, and never by both |
| `EngineChoice.PasswordIffNoUuid` | backend/internal/api/inbound_client_import.go:115-122 | an import takes the password of a client for its credential exactly for the kinds whose server knows its clients by a password alone |
| `RuntimeInterleaving.MutualExclusion` | backend/internal/service/proxy/runtime.go:579-584 | in every reachable state of any number of callers at most one is inside the transition |
| `RuntimeInterleaving.StepPreserves` | backend/internal/service/proxy/runtime.go:269-338 | every single step, crashes and cancellations included, keeps the gate, coherence and port invariants |
| `RuntimeInterleaving.RunPreserved` | backend/internal/service/proxy/runtime.go:293-338 | every step of a run, forward or rollback, keeps live engines within the old or within the new configurations, never a mixture |
| `RuntimeInterleaving.InvariantAlways` | backend/internal/service/proxy/runtime.go:565-674 | the invariant holds after every interleaving of steps |
| `RuntimeInterleaving.PortsNeverConflict` | backend/internal/service/proxy/runtime.go:286-333 | whatever the plans, no two live engines ever hold a common port as long as no stop of a rollback has failed |
| `RuntimeInterleaving.FailedRollbackStopCanConflict` | backend/internal/service/proxy/runtime.go:293-317 | from any idle state and for any plan that has a port of what another engine serves: an execution of its transition that ends with both engines live on that port |
| `RuntimeInterleaving.MixedPreserved` | backend/internal/service/proxy/runtime.go:269-338 | every step of a run, failed stops included, leaves each engine dead, on its snapshot or on its candidate; no such mixture conflicts when the plan is apart from what the other engines serve |
| `RuntimeInterleaving.CarefulPortsNeverConflict` | backend/internal/service/proxy/runtime.go:286-333 | whatever fails, no two live engines ever hold a common port in an execution whose plans are apart from what the other engines serve when the gate is taken |
| `RuntimeInterleaving.ConflictIff` | backend/internal/service/proxy/runtime.go:269-338 | from any idle state the transition of one plan can reach two live engines on one port, with any failures, crashes and other callers, if and only if the plan has a port of what another engine serves |
| `ExternalRuntime.InstalledMatches` | backend/internal/service/proxy/runtime.go:421-440 | the files an apply installs are those hashed into its revision, also after the marker is quarantined |
| `ExternalRuntime.ApplyKeepsSound` | backend/internal/service/proxy/runtime.go:613-640 | any apply whose restore writes succeed, whatever else fails, keeps: whatever revision the marker names, the files are that revision's |
| `ExternalRuntime.RunsStaySound` | backend/internal/service/proxy/external_runtime.go:205-219 | over any run of such applies, whenever the marker equals the revision the readiness check compares it with, stored now or cached before, the files on disk are exactly those of that revision |
| `ExternalRuntime.MidApplyWindow` | backend/internal/service/proxy/external_runtime.go:205-219 | during an apply the ungated readiness check is right if and only if none of the engines written so far changed |
| `ExternalRuntime.MidEngineWindow` | backend/internal/service/proxy/runtime.go:548-563 | between the configuration write and the marker write of one engine the check is right if and only if the engines before are unchanged and this one keeps its configuration or was not enabled |
| `ExternalRuntime.FailedRestoreIsUnsound` | backend/internal/service/proxy/runtime.go:353-378 | for every ready store and every apply that changes the configuration of an enabled engine: if it fails and the restore loop gets everything back but that configuration, the store it leaves is ready and holds a foreign file |
| `ExternalRuntime.FailedRestoreIff` | backend/internal/service/proxy/runtime.go:353-378 | after an apply that had written any number of engines, and a restore with any failures: the store passes the check if and only if the marker came back or was left naming the same revision, and is then right if and only if every entry of the stored revision survives, both read off the fates of the paths and the two revisions |
| `ExternalRuntime.Runner.RestoreAll` | backend/internal/service/proxy/runtime.go:253-264 | the loop restores path by path past failures: each path is back, left alone or torn, a path that did not fail is as it was, and without failures all files are |
| `ExternalRuntime.Runner.WriteTarget` | backend/internal/service/proxy/runtime.go:548-563 | one engine's forward writes touch only its own two files |
| `ExternalRuntime.Runner.Transition` | backend/internal/service/proxy/runtime.go:345-450 | success installs exactly the new revision, whose entries are the generated configurations of the wanted targets; failure with successful restores leaves every file as it was |
| `ExternalRuntime.Runner.ApplyRuntime` | backend/internal/service/proxy/runtime.go:613-640 | after an apply, committed or not, an engine is enabled on disk if and only if the mode wants it, and its configuration then serves, of the enabled inbounds, exactly those the mode assigns to it and its generator got; revision and files match, it is committed when nothing fails, and the apply stays inside the relation the run theorem is about, quarantine included |
| `DeployLog.DropinRoundTrip` | backend/internal/service/system/optimize_ops.go:110-156 | writing a drop-in and reverting what its row kept is the identity if and only if the file was missing, or was read, is UTF-8 and is not the absent-sentinel text; reverting the snapshot in memory needs no UTF-8 |
| `DeployLog.InboundRoundTrip` | backend/internal/service/deploy/orchestrator.go:414-480 | creating an inbound with its clients and deleting it is the identity on both tables |
| `DeployLog.UndoForgetsTornFile` | backend/internal/service/deploy/orchestrator.go:305-328 | undoing a log from states that differ in a file agrees on it once some operation of the log recorded it |
| `DeployLog.UndoableDropin` | backend/internal/service/deploy/orchestrator.go:245-272 | one more recorded drop-in keeps this: undoing the log gives the start exactly but for the recorded files whose first read failed, or that are not UTF-8 or hold the sentinel text |
| `DeployLog.UndoForgets` | backend/internal/service/deploy/orchestrator.go:305-328 | undoing a log forgets what a failed operation tore, file by file, and never touches a stray inbound |
| `DeployLog.PassLeavesEarliest` | backend/internal/service/deploy/orchestrator.go:305-328 | after a reverse pass a file holds what the earliest operation that touched it recorded |
| `DeployLog.RetriesRestoreIff` | backend/internal/service/deploy/orchestrator.go:305-328 | any number of passes, each over what the one before left and failing anywhere, until nothing is left: they always end where an undisturbed pass ends, given exceptions apart, if and only if no two operations recorded different contents for any other path |
| `DeployLog.RetryCanRegress` | backend/internal/service/deploy/orchestrator.go:305-328 | if two operations recorded different contents for a path, two passes, the first failing for one operation, leave that path with intermediate content |
| `DeployLog.PassConfines` | backend/internal/service/deploy/orchestrator.go:305-328 | after one pass, whatever failed, files and tables differ from an undisturbed pass at most by what the operations still to be retried did |
| `DeployOrchestrator.LogIsPass` | backend/internal/service/deploy/orchestrator.go:305-328 | undoing the log of a deployment is an undisturbed pass over its selected rows |
| `DeployOrchestrator.RetriesRestoreOriginal` | backend/internal/service/deploy/orchestrator.go:148-167 | wherever Execute stopped, retried rollbacks restore the original system, apart from what the failed operation left and the files no row could keep, if and only if no two operations of the deployment recorded different contents for any other path |
| `DeployOrchestrator.StillAccounts` | backend/internal/service/deploy/orchestrator.go:173-206 | what is accounted for stays so: across operations every changed file is the drop-in, and every new inbound or client the creation, of a row of the deployment in place |
| `DeployOrchestrator.LogIsSelected` | backend/internal/service/deploy/orchestrator.go:305-312 | the rows a rollback selects are exactly the revertible rows of the deployment, in table order |
| `DeployOrchestrator.Orchestrator.CreateRow` | backend/internal/service/deploy/orchestrator.go:245-257 | a pending row joins the log before any effect, or nothing changes; the write-ahead invariant holds either way |
| `DeployOrchestrator.Orchestrator.SaveRow` | backend/internal/service/deploy/orchestrator.go:263-270 | saving a row changes that row alone; the invariant holds whether or not the save succeeds |
| `DeployOrchestrator.Orchestrator.SaveDeployment` | backend/internal/service/deploy/orchestrator.go:377-385 | a deployment is marked rolled back only when nothing of it is left to revert, and never leaves that status |
| `DeployOrchestrator.Orchestrator.RevertSelected` | backend/internal/service/deploy/orchestrator.go:312-328 | the loop reverts in descending sequence past failures: it is one pass over the rows that leaves those still revertible, and without failed reverts the system is the undone log |
| `DeployOrchestrator.Orchestrator.Abort` | backend/internal/service/deploy/orchestrator.go:126-130 | the failure path is one pass over the log that leaves what is still selected, the undone log if every revert worked, and records the failure |
| `DeployOrchestrator.Orchestrator.ApplyTune` | backend/internal/service/system/optimize_ops.go:110-126 | a tune records what it could read of the file, a failed read as absence, before it writes that one file; its row is in place from then on |
| `DeployOrchestrator.Orchestrator.RevertTune` | backend/internal/service/system/optimize_ops.go:138-156 | a revert without error is the recorded undo; with an error it may have torn the recorded files and no other |
| `DeployOrchestrator.Orchestrator.CreateInbound` | backend/internal/service/deploy/orchestrator.go:414-471 | the transaction inserts the inbound and all its clients under fresh keys and makes the row its owner, or nothing |
| `DeployOrchestrator.Orchestrator.DeleteInbound` | backend/internal/service/deploy/orchestrator.go:473-480 | deletion removes the inbound and exactly its clients, or nothing |
| `DeployOrchestrator.Orchestrator.RevertOne` | backend/internal/service/deploy/orchestrator.go:330-360 | a reverted row is exactly undone; a failed revert changes no table and at most the files of that row |
| `DeployOrchestrator.Orchestrator.RunTune` | backend/internal/service/deploy/orchestrator.go:245-272 | a row exists before its effect; on success undoing the longer log gives the start but for the files no row can keep; on failure only the operation's own file may differ, and then its row is in place without saying so; on success exactly its file has its content and one applied row is added |
| `DeployOrchestrator.Orchestrator.RunInbound` | backend/internal/service/deploy/orchestrator.go:274-303 | same for an inbound, with no file touched; a failed save deletes it on the spot, and if that fails too the inbound is the only thing left, owned by the row in place; on success exactly this inbound and its clients are new |
| `DeployOrchestrator.Orchestrator.Execute` | backend/internal/service/deploy/orchestrator.go:173-206 | wherever the pipeline stops, whatever differs from the start is the doing of a row of the deployment in place, and undoing the log gives the start but for the file or inbound of the one unsettled row and exactly the files whose first read failed, are not UTF-8 or hold the sentinel text; on success the plan has been carried out (`CarriedOut`): every file has the content of the last operation that writes it or the one it had, the new inbounds are exactly the specified ones, enabled, each under an id of its own with exactly its clients, and the log holds one applied row per operation in order; success needs the ports of the plan free and different, and when nothing fails that is enough |
| `DeployOrchestrator.Orchestrator.RollbackOps` | backend/internal/service/deploy/orchestrator.go:305-328 | whatever fails, one pass over the selected rows that leaves the rows still selected; clean means the system is the undone log, ok in addition that no row is left to revert |
| `DeployOrchestrator.Orchestrator.Apply` | backend/internal/service/deploy/orchestrator.go:97-146 | an undone deployment whose reverts succeeded restores everything but the file or inbound of the one row in place that does not say so and exactly the files no row could keep; when reverts fail, what is wrong is confined to these and to the rows a retry selects; a deployment that is not undone has carried out its plan as under Execute, and when nothing fails it is not undone if and only if the ports of its inbounds are free and different; an error with everything live happens only when the final status could not be saved |
| `DeployOrchestrator.Orchestrator.Rollback` | backend/internal/service/deploy/orchestrator.go:148-167 | every call is one pass over what is still selected; success undoes the whole log and leaves nothing to revert; a rolled-back deployment stays rolled back and a second rollback changes nothing; when nothing fails it succeeds |
| `Base64.DecodeEncode` | backend/internal/service/selftest/link.go:157-165 | decoding inverts encoding in all four variants, for every byte string |
| `Base64.DecodeGroupsSound` | backend/internal/service/selftest/link.go:157-165 | a decoder of any variant yields, on unpadded text of either alphabet, the encoded bytes or an error, never other bytes |
| `Base64.DecodeAnyInverts` | backend/internal/service/selftest/link.go:157-165 | the decoder that tries four variants in a fixed order gives back the bytes of text in any of the four, padded or not, although others may be tried first |
| `Base64.ColonIsNoBase64` | backend/internal/service/selftest/link.go:157-165 | text with a colon is base64 in none of the four variants |
| `Base64.LineBreakIgnored` | backend/internal/service/selftest/link.go:157-165 | a line break anywhere in a base64 text changes nothing in any variant |
| `Base64.DecodedIsNear` | backend/internal/pkg/apitoken/apitoken.go:66 | whatever unpadded text decodes is the encoding of the result up to the unused bits of the last character |
| `Base64.NearDecodes` | backend/internal/pkg/apitoken/apitoken.go:66 | and all such spellings decode to the same bytes |
| `JsonText.CoercedIff` | backend/internal/service/deploy/orchestrator.go:263-264 | a text comes back from JSON unchanged if and only if it is UTF-8 |
| `JsonText.CoercedIsUtf8` | backend/internal/service/deploy/orchestrator.go:263-264 | what comes back is UTF-8, so a second round loses nothing |
| `JsonText.RuneEncodes` | backend/internal/service/deploy/orchestrator.go:263-264 | an encoded code point is one character of UTF-8, one to four bytes long, whatever follows |
| `JsonText.RuneDecodes` | backend/internal/service/deploy/orchestrator.go:263-264 | every character of UTF-8 is the encoding of its code point |
| `JsonText.RuneComesBack` | backend/internal/service/deploy/orchestrator.go:263-264 | the code point of an encoded code point is that code point |
| `JsonText.QuoteReads` | backend/internal/service/sub/generator.go:1224-1225 | a string written with the escapes of the encoder is read back with bytes that are not UTF-8 replaced, for any bytes |
| `JsonText.ObjectReads` | backend/internal/service/selftest/link.go:170-173 | an object of strings is read back member by member |
| `Percent.UnescapeEscape` | backend/internal/service/sub/generator.go:1118-1160 | unescaping inverts escaping for every byte string, also across the escaping modes the printer and parser mix |
| `Percent.HexValueIs` | backend/internal/service/selftest/link.go:194-222 | hexadecimal digits are read in either case, and nothing else is |
| `Percent.ParseEncodeQuery` | backend/internal/service/sub/generator.go:1118-1160 | parsing an encoded query gives back every parameter, whatever bytes it holds |
| `LinkUrl.HostPortRoundTrip` | backend/internal/service/sub/generator.go:1112-1115 | a server printed with its port, bracketed or not, is accepted by the URL parser and split back into host and port |
| `LinkUrl.ParseLink` | backend/internal/service/selftest/link.go:126-136 | a printed link parses to the meaning of its user and host texts and keeps its query, when the user text has no delimiter |
| `LinkUrl.ControlIsRejected` | backend/internal/service/selftest/link.go:20-40 | a link with a control character before its fragment is rejected |
| `LinkUrl.RawUserIff` | backend/internal/service/sub/generator.go:1157-1159 | an unescaped text printed as user information is the user name read back if and only if it is plain |
| `GoText.SpaceIs` | backend/internal/service/selftest/link.go:42-50 | what is trimmed are the six ASCII blanks |
| `Csv.SplitAndTrim` | backend/internal/service/proxy/xray.go:306-316 | the splitting loop computes the trimmed non-empty parts |
| `Csv.SplitCsvJoin` | backend/internal/service/selftest/link.go:42-50 | joining tokens and splitting again gives the same tokens |
| `Csv.SplitCsvTokens` | backend/internal/service/proxy/xray.go:306-316 | splitting any text yields tokens only: trimmed, non-empty, without comma |
| `ShareLinks.KnownTexts` | backend/internal/service/selftest/link.go:126-155 | every parameter the printers use is recognised by the name it was printed under |
| `ShareLinks.LinksAscend` | backend/internal/service/sub/generator.go:1228-1261 | the parameters of every printed link are in the order of their names |
| `ShareLinkRoundTrips.TrojanTransportIff` | backend/internal/service/sub/generator.go:1263-1294 | parsing a printed trojan link gives back the stream's transport if and only if the network is not "http" with a path or host |
| `ShareLinkRoundTrips.VlessTransportIff` | backend/internal/service/sub/generator.go:1263-1294 | the same for a vless link with a plain credential |
| `ShareLinkRoundTrips.VlessDescribes` | backend/internal/service/sub/generator.go:1118-1155 | the vless parameters say, under every key, exactly what the stream asks for |
| `ShareLinkRoundTrips.TrojanDescribes` | backend/internal/service/sub/generator.go:1228-1261 | the trojan parameters say, under every key, exactly what the stream asks for |
| `ShareLinkRoundTrips.ReadLink` | backend/internal/service/selftest/link.go:20-40 | every printed link of a kind is parsed by the reader of that kind into a url with its address, port and parameters |
| `ShareLinkRoundTrips.RemarkReads` | backend/internal/service/sub/generator.go:1228-1261 | the fragment of a printed link is the name of the node, escaped |
| `ShareLinkRoundTrips.VlessRoundTrip` | backend/internal/service/selftest/link.go:126-155 | parsing a printed vless link recovers server, port, credential, flow, the carried transport and the TLS or REALITY block as spelled out on the texts of the stream: public key, short id, fingerprint (chrome where REALITY has none), server name, ALPN list and flag |
| `ShareLinkRoundTrips.VlessCredentialIff` | backend/internal/service/sub/generator.go:1157-1159 | a vless link gives back its credential if and only if the credential needs no escaping |
| `ShareLinkRoundTrips.TrojanRoundTrip` | backend/internal/service/sub/generator.go:1228-1261 | a trojan link is always accepted; its password comes back up to the first colon, everything else exactly, TLS block and transport as spelled out on the texts of the stream |
| `ShareLinkRoundTrips.Hysteria2RoundTrip` | backend/internal/service/sub/generator.go:1376-1404 | a hysteria2 link gives back address, TLS settings and obfuscation always, the password exactly when it has no colon |
| `ShareLinkRoundTrips.TuicRoundTrip` | backend/internal/service/sub/generator.go:1344-1373 | a tuic link gives back everything but the credential always, and both uses of the credential exactly when it has no colon |
| `ShareLinkRoundTrips.ShadowsocksRoundTrip` | backend/internal/service/selftest/link.go:194-222 | for any bytes in method, password and key, a plugin-free link with a password is accepted and gives back client password and method, aes-256-gcm if the settings name none, if and only if the settings' method has no colon |
| `ShareLinkRoundTrips.PlainShadowsocksReads` | backend/internal/service/selftest/link.go:194-222 | a shadowsocks link with unencoded method and password is read as they stand when the method has no colon |
| `ShareLinkRoundTrips.VmessRoundTrip` | backend/internal/service/sub/generator.go:1162-1225 | a vmess link, JSON text included, gives back the TLS block and transport it carries, spelled out on the texts of the stream (REALITY without ALPN list and flag), and credential and address each if and only if it is UTF-8 |
| `ShareLinkRoundTrips.VmessTlsIff` | backend/internal/service/sub/generator.go:1179-1207 | parsing a printed vmess link gives back the stream's TLS block unless REALITY comes with an ALPN list or the insecure flag |
| `ShareLinkRoundTrips.VmessTextReads` | backend/internal/service/sub/generator.go:1162-1225 | the JSON object with its optional members says under every name what was put there |
| `ShareLinkRoundTrips.VmessConstants` | backend/internal/service/sub/generator.go:1162-1178 | the JSON of a vmess link says version 2, no alter id, automatic cipher, and the name of the node |
| `ShareLinkRoundTrips.WrittenIff` | backend/internal/service/sub/generator.go:1179-1225 | exactly the insecure flag, the fingerprint and the three REALITY members are left out of the JSON when empty |
| `ShareLinkRoundTrips.AlpnRoundTrip` | backend/internal/service/selftest/link.go:42-50 | the ALPN list the stream settings hold is the list the client parsed from a trojan link uses, name for name |
| `ServerCredentials.BuildInbound` | backend/internal/service/proxy/singbox.go:232-352 | the loops install one user per client with the credential fields of the protocol, shared keys and obfuscation as configured |
| `ServerCredentials.BuildXrayInbound` | backend/internal/service/proxy/xray.go:211-270 | the loops of the Xray generator install one user per client, and keep the settings' own clients when there is no client row |
| `ServerCredentials.EnginesInstallTheSame` | backend/internal/service/proxy/xray.go:211-270 | for the kinds that run on Xray both generators install the same credentials |
| `ServerCredentials.VlessAccepted` | backend/internal/service/proxy/singbox.go:233-249 | the client of a vless link with a plain credential is let in by the generated sing-box and Xray servers |
| `ServerCredentials.VmessAccepted` | backend/internal/service/proxy/singbox.go:250-259 | the client of a vmess link is let in by either server if and only if its credential, as JSON carries it, is installed; always for UTF-8 |
| `ServerCredentials.TrojanAcceptedIff` | backend/internal/service/proxy/singbox.go:261-270 | the client of a trojan link is let in by either server if and only if its credential up to the first colon is installed; always without colon |
| `ServerCredentials.TuicAccepted` | backend/internal/service/proxy/singbox.go:333-352 | the client of a tuic link with a colon-free credential is let in by the generated server |
| `ServerCredentials.Hysteria2AcceptedIff` | backend/internal/service/proxy/singbox.go:294-317 | a hysteria2 client is let in if and only if the settings hold no obfuscation password without a type |
| `ServerCredentials.ShadowsocksAcceptedIff` | backend/internal/service/proxy/singbox.go:271-292 | for all settings, on either server: the client gets a link the server accepts if and only if there is a password, a method without colon, and not a multi-user cipher with a client without a key; settings without a method get a link for a method the server lacks |
| `ApiToken.GeneratedIsWellFormed` | backend/internal/pkg/apitoken/apitoken.go:28-38 | every generated token is well-formed, for all 16 random bytes and any checksum function |
| `ApiToken.WellFormedIff` | backend/internal/pkg/apitoken/apitoken.go:53-72 | a text is well-formed if and only if it is a generated token up to the four bits the base64 decoder ignores |
| `ApiToken.SixteenSpellings` | backend/internal/pkg/apitoken/apitoken.go:53-72 | a secret has exactly sixteen accepted spellings, pairwise different, the generated one among them |
| `FirewallChain.InsertMeaning` | backend/internal/service/firewall/firewall.go:164-227 | inserted rules change the verdict of exactly the packets that reach and match them, and give those their action |
| `FirewallChain.RuleMeaning` | backend/internal/service/firewall/firewall.go:164-227 | the rule for a request matches exactly the packets asked for and has its action |
| `FirewallChain.UnreadMatch` | backend/internal/service/firewall/firewall.go:245-268 | a rule with a match the panel does not read, such as an interface or a state, decides nothing where that match fails, although the panel may count it as an open port |
| `FirewallChain.RefusedIff` | backend/internal/service/firewall/firewall.go:49-75 | a request is refused exactly for another protocol or action, a port out of range, or a port with a protocol that has none |
| `FirewallChain.CommentIsSafe` | backend/internal/service/firewall/firewall.go:204-216 | a comment keeps at most 64 harmless characters, and a harmless one is kept |
| `FirewallChain.InsertOneMore` | backend/internal/service/firewall/firewall.go:189-194 | rules added one after the other line up in order directly before the catch-all |
| `FirewallChain.AppendedAfterCatchAllIsDead` | backend/internal/service/firewall/firewall.go:132-136 | a rule appended behind a catch-all never changes a verdict |
| `FirewallChain.MarkSurvives` | backend/internal/service/firewall/firewall.go:204-219 | cleaning and cutting a comment never loses the mark of a managed rule |
| `FirewallChain.DeleteFirstStale` | backend/internal/service/firewall/firewall.go:322-336 | deleting the first stale rule by its specification deletes that very rule, even among duplicates |
| `FirewallChain.PruneKeepsUnmanaged` | backend/internal/service/firewall/firewall.go:286-316 | pruning keeps every unmanaged rule in its order |
| `Firewall.CatchAllPosition` | backend/internal/service/firewall/firewall.go:137-155 | the scanning loop finds the first unconditional DROP or REJECT, or reports none |
| `Firewall.FindAccept` | backend/internal/service/firewall/firewall.go:245-265 | the scan answers whether some rule accepts exactly this protocol and port |
| `Firewall.StaleRules` | backend/internal/service/firewall/firewall.go:294-316 | the scan collects exactly the managed rules no listener needs, in order |
| `Firewall.CloudflareLabels` | backend/internal/service/firewall/firewall.go:361-385 | the protection rules carry the labels by which they are found again |
| `Firewall.CloudflareMeaning` | backend/internal/service/firewall/firewall.go:338-356 | an address a.b.c.d is in the ranges let in exactly if its bytes are in one of the fifteen published ranges |
| `Firewall.ProtectionMeaning` | backend/internal/service/firewall/firewall.go:361-385 | after the Cloudflare loop packets to the port or port range that reach the new rules are accepted exactly from a listed range and dropped otherwise; all other verdicts are unchanged |
| `Firewall.PartialProtectionMeaning` | backend/internal/service/firewall/firewall.go:361-385 | a loop that failed midway lets the ranges done so far in and blocks nothing |
| `Firewall.ProtectedIff` | backend/internal/service/firewall/firewall.go:361-385 | the ports are fully protected if and only if no rule before the insertion point decides one of their packets differently |
| `Firewall.OpenedPortIsNotProtected` | backend/internal/service/firewall/firewall.go:274-282 | the rule EnsureOpen adds for a listener, anywhere before the insertion point, defeats later protection: whatever the rules before it let through to it stays accepted |
| `Firewall.ReapplyingIsHarmless` | backend/internal/service/firewall/firewall.go:361-385 | running the loop again on a protected chain changes no verdict |
| `Firewall.OpenedMeaning` | backend/internal/service/firewall/firewall.go:267-282 | for every chain and packet, whether a rule is added or not: a packet to the listener is accepted if and only if the rules before the insertion point accept it, or leave it alone while a rule was needed or the chain is open; all other verdicts stay |
| `Firewall.OpenedServesIff` | backend/internal/service/firewall/firewall.go:243-265 | EnsureOpen leaves the port open to everybody if and only if no rule before the insertion point turns a packet of it away and either a rule was added, the chain is open anyway, or accepting rules there cover it |
| `Firewall.CoveredByPlainAccept` | backend/internal/service/firewall/firewall.go:243-265 | a plain accept rule covers the listener, and among rules that accept plainly or not at all nothing else does |
| `Firewall.CountedAsOpen` | backend/internal/service/firewall/firewall.go:243-265 | an accept rule for a single source or behind the catch-all counts as open: nothing is added and whoever no earlier rule lets in stays shut out |
| `Firewall.SourceBoundOrDeadAccept` | backend/internal/service/firewall/firewall.go:243-265 | both happen: a chain with one source-bound accept rule, and one with an accept rule behind a catch-all, are left as they are and do not serve the port |
| `Firewall.ReconciledSettles` | backend/internal/api/subscription_server.go:147-177 | an error-free EnsurePanelPortsOpen leaves only managed rules of current listeners and every unmanaged rule in order |
| `Firewall.ReconciledTwice` | backend/internal/api/subscription_server.go:147-177 | a second error-free run changes nothing |
| `Firewall.ListenersArePanel` | backend/internal/api/subscription_server.go:147-177 | every listener derived from inbounds and subscription settings is one whose rule carries the panel's mark |
| `Firewall.ListenersExactly` | backend/internal/api/subscription_server.go:129-177 | the listeners are exactly those of the enabled inbounds, TCP unless they speak QUIC, UDP if they do or are shadowsocks, and that of the subscription server |
| `Firewall.OtherTrafficIsUntouched` | backend/internal/api/subscription_server.go:147-177 | traffic to no listener that no stale rule matches is treated as before |
| `Firewall.Host.AddRule` | backend/internal/service/firewall/firewall.go:164-227 | a rule is validated, then inserted before the first catch-all, or appended when the chain cannot be listed; a failure changes nothing; when nothing fails, exactly the valid requests succeed |
| `Firewall.Host.EnsureOpen` | backend/internal/service/firewall/firewall.go:274-282 | a rule is added only when the chain blocks by default and no accept rule exists |
| `Firewall.Host.PruneManaged` | backend/internal/service/firewall/firewall.go:322-336 | deleting by specification, one command per rule, leaves the chain without its stale rules; a failed deletion leaves a prefix done, and without one it succeeds |
| `Firewall.Host.Protect` | backend/internal/service/firewall/firewall.go:361-385 | ports out of range are refused; otherwise the loop leaves the first n protection rules in order before the catch-all, all of them exactly on success, and when nothing fails valid ports succeed |
| `Firewall.Host.EnsurePanelPortsOpen` | backend/internal/api/subscription_server.go:147-177 | the listeners are those it could read: some of the inbounds when the query fails, a default when a setting does; an error-free run reaches the chain reconciled with them, a chain settled for them is never changed, and unmanaged rules never are; when nothing fails, everything is read, and with ports in range the run is error-free |
| `Firewall.MisreadIff` | backend/internal/api/subscription_server.go:147-177 | a settled chain survives an error-free run that misread the listeners if and only if every managed rule in it belongs to a listener that was read and the mistaken subscription port needs no rule |
| `Firewall.FailedReadIff` | backend/internal/api/subscription_server.go:147-151 | when the query of the inbounds yields nothing, a settled chain survives if and only if none of its managed rules belongs to an inbound alone |
| `RingBuffer.Ring.Write` | backend/internal/service/proxy/core.go:95-121 | after a write of any length the buffer shows the last size bytes of what it showed before plus the chunk |
| `RingBuffer.Ring.String` | backend/internal/service/proxy/core.go:123-133 | reading returns what is shown, oldest byte first |
| `RingBuffer.Ring.Reset` | backend/internal/service/proxy/core.go:135-140 | a reset forgets everything |
| `RingBuffer.Ring.Run` | backend/internal/service/proxy/core.go:80-140 | after any run of writes and resets exactly the last min(size, total) bytes written since the last reset are shown |
| `RoutingRules.NormalizeIdempotent` | backend/internal/service/proxy/routing_rules.go:11-42 | normalizing a field, a rule or a signature twice is normalizing once |
| `RoutingRules.SortIsUnique` | backend/internal/service/proxy/routing_rules.go:28-30 | however the distinct tokens are sorted, the result is the same |
| `RoutingRules.FieldSignature` | backend/internal/service/proxy/routing_rules.go:11-33 | the lower-cased normal form says exactly which names a field lists |
| `RoutingRules.SignatureIff` | backend/internal/service/proxy/routing_rules.go:44-52 | for all rules: they list the same names and name the same outbound, case ignored, if and only if their signatures are equal and their fields hold equally many bars |
| `RoutingRules.BarFreeSignatureIff` | backend/internal/service/proxy/routing_rules.go:44-52 | without bars in any field the signature alone decides |
| `RoutingRules.BarsCollide` | backend/internal/service/proxy/routing_rules.go:44-52 | with the bar character inside tokens, rules that disagree share a signature |
| `RoutingRules.UniqueKeepsFirst` | backend/internal/service/proxy/routing_rules.go:54-69 | a rule is kept, normalized and in place, if and only if no earlier rule has its signature |
| `RoutingRules.UniqueRoutesIff` | backend/internal/service/proxy/routing_rules.go:54-69 | removing duplicates leaves every connection with the rule that routed it, for every matching that depends on the listed names, if and only if each rule that shares the signature of an earlier one whose bars belong to other fields has an earlier rule listing its very names |
| `RoutingRules.BarFreeIsHarmless` | backend/internal/service/proxy/routing_rules.go:54-69 | lists without bars meet that condition |
| `RoutingRules.NormalizeRuleCsv` | backend/internal/service/proxy/routing_rules.go:11-33 | the loop over a seen map computes the normal form |
| `RoutingRules.UniqueRoutingRules` | backend/internal/service/proxy/routing_rules.go:54-69 | the loop over a seen map computes the list of first rules |
| `AdminSessions.AdminRow.UpdateAdminSecurity` | backend/internal/api/admin_sessions.go:14-26 | the handler is the commit step of the state machine: it commits if and only if the version is the one that was read, sets exactly the fields of the change and the next version, and shuts out every other change that read the same version |
| `AdminSessions.AdminRow.TryRecoveryCode` | backend/internal/api/router.go:158-180 | the loop is the spend step of the state machine for the first hash that matches; exactly the spent hash is gone from the row, and nobody who had read the same row can spend any |
| `AdminSessions.StepPreserves` | backend/internal/api/security_routes.go:344-395 | every step of any interleaving of logins, refreshes and changes keeps the session, commit and code invariants |
| `AdminSessions.RunPreserves` | backend/internal/api/admin_sessions.go:14-26 | session versions only grow |
| `AdminSessions.OneCommitPerVersion` | backend/internal/api/admin_sessions.go:14-26 | of the changes that read one version at most one commits |
| `AdminSessions.RevokedForever` | backend/internal/api/middleware/auth_middleware.go:106-129 | once a version is left, no token of it is ever accepted again |
| `AdminSessions.SessionsEnd` | backend/internal/pkg/jwtutil/jwtutil.go:55-76 | no chain of refreshes yields a token that lasts past its login plus seven days |
| `AdminSessions.LetInIff` | backend/internal/pkg/jwtutil/jwtutil.go:80-107 | in any run a request is let in if and only if its token was issued, is of the current version and has not ended |
| `AdminSessions.LetInIsRecent` | backend/internal/pkg/jwtutil/jwtutil.go:80-107 | in any run whoever is let in logged in less than seven days ago and holds a token issued less than 24 hours ago |
| `AdminSessions.SessionsLast` | backend/internal/pkg/jwtutil/jwtutil.go:55-76 | a login lasts 24 hours, a refresh as long but never past seven days after the login |
| `AdminSessions.TokensComeFrom` | backend/internal/api/router.go:885-905 | a token is only issued to a login that passed all factors, or to a request let in with a token of the same login and version |
| `AdminSessions.RowChangesBy` | backend/internal/api/admin_sessions.go:14-26 | the row only changes by a change or setup of a request that was let in and read it, or by a recovery code of a login |
| `AdminSessions.CodesWorkOnce` | backend/internal/api/router.go:158-180 | every stored recovery code lets somebody in at most once |
| `AdminSessions.SpendIff` | backend/internal/api/router.go:158-180 | a recovery code passes a login, and exactly it is gone then, if and only if 2FA was on and neither version nor codes have changed since the login read the row |
| `AdminSessions.SetupIff` | backend/internal/api/security_routes.go:85-106 | a 2FA setup replaces the codes, and nothing else, if and only if 2FA is off and the version is the one that was read |
| `AdminSessions.RacedLoginIsDead` | backend/internal/api/router.go:894-901 | a login that raced a security change gets a token that is never accepted |
| `AdminSessions.RevokedCommitIff` | backend/internal/api/security_routes.go:376-392 | in any run, a change takes effect for a session revoked in the meantime if and only if the row it compares is current and carries another version than the session |
| `AdminSessions.RevokedSessionCanStillCommit` | backend/internal/api/security_routes.go:376-392 | from every start and for every change a run in which a request let in before a logout everywhere reads the row after it and commits |
| `SubscriptionCache.EarliestExpiry` | backend/internal/service/sub/generator.go:509-518 | the loop computes the earliest end of an entitlement |
| `SubscriptionCache.EarliestIsFirst` | backend/internal/service/sub/generator.go:509-518 | that end is no later than any row's and belongs to one of them |
| `SubscriptionCache.SweepingLosesNoHit` | backend/internal/service/sub/generator.go:386-400 | lookups and garbage collection never cost a later hit |
| `SubscriptionCache.Cache.Get` | backend/internal/service/sub/generator.go:371-384 | a lookup returns a usable entry and drops an unusable one |
| `SubscriptionCache.Cache.Put` | backend/internal/service/sub/generator.go:386-400 | a store adds the entry and at most once a minute sweeps exactly the unusable ones |
| `SubscriptionCache.HitsAreCurrent` | backend/internal/service/sub/generator.go:371-384 | in any run a hit was stored at most eight seconds before and holds no client whose entitlement is over |
| `SubscriptionCache.HitsAreOwn` | backend/internal/service/sub/generator.go:417-435 | in any run what is served under a key was at some time of the run exactly the active rows of that client |
| `SubscriptionCache.MissIsServedNext` | backend/internal/service/sub/generator.go:425-545 | a request that misses reads and stores the active rows of its client, and the answer is found next if and only if there are rows and no entitlement in them has ended |
| `SubscriptionCache.HitBuildsNothing` | backend/internal/service/sub/generator.go:425-435 | a request that hits changes nothing |
| `SubscriptionCache.InvalidationIff` | backend/internal/service/sub/generator.go:547-553 | at any time of any run, every hit after an invalidation was built from rows read after it, if and only if no storable build was in flight |
| `DualStackNodes.OneEndpointPerFamily` | backend/internal/service/sub/generator.go:607-657 | an inbound contributes at most one endpoint per family, IPv6 first, and none without an address |
| `DualStackNodes.EndpointsAreReal` | backend/internal/service/sub/generator.go:617-632 | a supported inbound is left out only when no address is known, and a literal address never contributes the other family |
| `DualStackNodes.EndpointsExactly` | backend/internal/service/sub/generator.go:607-637 | the endpoint of a family is the address configured for it, else the primary address if it is a literal of that family, or a name with no address configured at all |
| `DualStackNodes.FreeName` | backend/internal/service/sub/generator.go:645-654 | the search for a name ends, at the first attempt that is free |
| `DualStackNodes.AttemptsDiffer` | backend/internal/service/sub/generator.go:645-654 | the names tried for a node are pairwise different |
| `DualStackNodes.StemIs` | backend/internal/service/sub/generator.go:612-645 | a node is named after its tag, or its protocol and port, and its family |
| `DualStackNodes.WellNamedIsDistinct` | backend/internal/service/sub/generator.go:607-657 | all node names are pairwise distinct |
| `DualStackNodes.StemIsKept` | backend/internal/service/sub/generator.go:641-648 | a node keeps its plain name if and only if no earlier node has it |
| `DualStackNodes.DualStackClashNodes` | backend/internal/service/sub/generator.go:607-657 | the nodes are exactly the endpoints of the inbounds, in order, each with its first free name |
| `DualStackNodes.GroupsListAll` | backend/internal/service/sub/generator.go:964-976 | both automatic groups list every node exactly once, all IPv6 before all IPv4 |
| `DualStackNodes.DualStackGroups` | backend/internal/service/sub/generator.go:964-976 | the loop writes the names in that order |
| `ClientImport.ExtractImportedClients` | backend/internal/api/inbound_client_import.go:50-115 | the loops over two lookup maps read each client with a credential and its latest statistics |
| `ClientImport.ImportedFields` | backend/internal/api/inbound_client_import.go:52-160 | an imported client has the preferred credential, its own or a made-up email, and its own settings except for counters, and for limit, end and flag where its statistics, found by credential or else by email, say more |
| `ClientImport.SkippedIff` | backend/internal/api/inbound_client_import.go:115-137 | a client is skipped if and only if it has no credential at all |
| `ClientImport.DerivedEmailIsPlain` | backend/internal/api/inbound_client_import.go:139-150 | the made-up email of a client is the start of its credential with dashes for at signs, colons and slashes |
| `ClientImport.ExportRoundTrip` | backend/internal/api/three_xui_bridge.go:308-352 | exported clients are read back exactly: credential, email, flag, counters, limit, expiry and remark |
| `ClientImport.UniqueEmail` | backend/internal/api/inbound_client_import.go:162-183 | the search for an email ends with one that nobody else has |
| `ClientImport.FindIs` | backend/internal/api/inbound_client_import.go:199-212 | an imported client belongs to the first row with its credential, and only if there is none to the first row with its email |
| `ClientImport.SyncKeepsIndex` | backend/internal/api/inbound_client_import.go:185-250 | no sync ever runs into the unique index on emails, whatever the payload and the table |
| `ClientImport.ImportRecreates` | backend/internal/api/inbound_client_import.go:185-250 | importing an export into an empty inbound recreates every client, in order |
| `ClientImport.ImportTwice` | backend/internal/api/inbound_client_import.go:185-250 | syncing the same payload again changes nothing |
| `ClientImport.ClientTable.EnsureUniqueEmail` | backend/internal/api/inbound_client_import.go:162-183 | the loop ends and finds the first free candidate |
| `ClientImport.ClientTable.Sync` | backend/internal/api/inbound_client_import.go:185-250 | a sync updates or creates row by row, or changes nothing, which it does only when a statement fails |

## Left out

- Crashes of an engine during a transition are steps of `RuntimeInterleaving`, not of the class in `RuntimeTransition`.
- What one generator gets from the database, in several queries whose errors it drops, is one parameter of the model, free of what the caller read; the mode text is taken as already normalised. A probe is about a port number, TCP and UDP alike.
- ServerCredentials: the clients of an inbound are given; a failed query of them, which the code drops, is an inbound without clients.
- Starting and stopping engines by hand and at panel startup, which bypass the gate.
- The recovery restart and re-verification of external mode after a restore: they change no file.
- Restore of permissions and ownership: file contents and existence only.
- Live sysctl values, service start and stop, the time-sync operation and `rps_spread`; presets and port picking: a given plan is executed.
- DeployOrchestrator.RetriesRestoreOriginal: nothing else changes files or tables between the passes of a retried rollback.
- DeployLog.DropinRoundTrip: paths are plain constants of the registry of operations and are taken to survive as JSON names.
- Certificates: a step that succeeds or fails and is never undone, as in the code; the certificate paths injected into inbounds are not modelled.
- JSON text of settings, stream settings, 3x-ui payloads and generated configurations: parsed records instead.
- ShareLinkRoundTrips.ShadowsocksRoundTrip: links with a plugin are rejected by the parser and have no round trip; the theorem is about inbounds without one.
- ShareLinkRoundTrips.VmessRoundTrip: about a reader of JSON that reads objects of strings as they are; of objects with other members, which no printed link has, nothing is said.
- IPv6 zone identifiers in share links, and hosts that the URL parser rejects (`HostOk` says which are meant).
- Lower-casing and trimming are ASCII; Go's are Unicode.
- The sing-box and Xray text of routing rules, rule sets, outbounds and DNS servers.
- Firewall text: rules are parsed records with space-free comments, one address family, `--reject-with` dropped. Deleting one rule by request and removing Cloudflare rules are left out; the removal refuses every commented rule, so the loop is modelled on the chain as it is.
- Firewall.ReconciledSettles: a listener whose port number is out of range makes the run fail and is covered by `EnsurePanelPortsOpen` only.
- Password hashing, TOTP and token signatures: checks that pass or fail; only issued tokens are presented. Session versions are unbounded numbers. Rate limits, lockouts, API-token scopes and cookies.
- AdminSessions.CodesWorkOnce: about stored hashes; two codes with equal text would be two hashes.
- Cache keys are records; the code joins their parts with a bar character.
- Soft-deleted client rows and GORM's treatment of zero values with column defaults.
- Clash YAML beyond node names and groups, the regular single-endpoint profile, HTTP handlers, the CLI, the web frontend, backups, monitoring, notifications and the traffic collector.
