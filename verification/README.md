# Airlock: a verified model of its stateful core

Airlock is a fixed-route relay: a local daemon holds routes to HTTP, LLM and SSH targets, keeps their credentials in a
secret store, and lets local clients use a route without seeing what is behind it. This project models the parts of Airlock
that keep state under failure, and proves what every run of them keeps.

- **Control plane** (`ControlSpec`, `ControlServer`, `ControlInvariant`, `ControlRollback`, `ControlDisk`, `ControlEffects`,
  `Startup`, `Growth`). Every request is a transaction `Step(state, request, env)` over two registries, two metadata files,
  the secret store and the proxy, where `env` holds every answer of the outside world: generated keys, failing store calls, and the three ways a save
  can end (installed, not installed, installed but reported as failed). The class `ControlServer.Server` runs the handlers
  step by step with their hand-written rollback and is proved to do exactly that.
- **Routes and their files** (`HttpRoutes`, `SshRoutes`, `HttpFiles`, `SshFiles`, `RouteCodec`). Registries as classes over
  a map, traversed in arbitrary order; loading and saving as encoding and decoding of a document.
- **Chunked credentials** (`Credentials`). The Windows backend over a keyring whose calls may fail, with the process stopping
  between any two of them, refines a plain map.
- **Secret-store migration** (`Migration`, `Settings`). The two control requests, and the desktop's protocol around them.
- **Limiter, paths, sessions, logs, usage** (`Limiter`, `Paths`, `Sessions`, `Logs`, `Usage`).

`Text`, `Order`, `Maps`, `Names`, `Files` and `Secrets` are shared vocabulary. Check everything with
`dafny verify dfyconfig.toml`.

## Where the code falls short of the property

Each of these is modelled as the code has it, with the exact condition under which the property holds.

- `stopAll` reports an error after a failed HTTP save and leaves the SSH routes switched off in memory
  (`ControlRollback.FailedStopAll`, `ControlRollback.StopAllCanHalfApply`), so that disk and registry then disagree exactly
  when an SSH route was enabled (`ControlDisk.DiskAfterStopAll`).
- An SSH route with the alias `host-identity` shares its reference with the daemon's host key and replaces it
  (`ControlRollback.IdentitySurvives`, `ControlRollback.HostIdentityCanBeTaken`). While that route is registered the daemon does not
  start (`Startup.BootRecovers`, `Startup.HostIdentityRouteBlocksStart`, `Startup.CreationCanBlockStart`).
- Save writes files of any size, Load refuses more than 1 MiB (`HttpFiles.LoadOfSave`, `SshFiles.LoadOfSave`); 1024 ordinary
  creations reach that, after which the daemon does not start again (`Growth.GrowthBlocksStart`).
- A settings change whose new daemon does not start, whose old settings cannot be written back, and whose old daemon starts
  again cleans the store that the settings file still names (`Settings.Desktop.Apply`, `Settings.ExposureHappens`). A failed
  save of the new settings does the same when the file already named that store.
- A proxy left over in the destination store comes into use after a migration from a store without one
  (`Settings.ProxyCarriedOver`, `Settings.StaleProxyHappens`).
- A value of more than 1024 chunks is accepted by the Windows backend, replaces the old value, and cannot be read
  (`Credentials.PutReadable`). Only a direct caller of the backend meets this: control messages are cut at 64 KiB, far below
  1024 * 1200 bytes.
- Under a base path of `/` a redirect is accepted only to `/` itself (`Paths.RedirectAcceptedExactly`); and a base path whose
  `..` pops a segment with an escaped slash names two different places (`Paths.EscapedSlashPopped`).
- An LLM base URL that ends in `//v1` keeps a trailing slash (`ControlEffects.LlmBasePathExactly`, `ControlEffects.SlashCanStay`).
- The start of the daemon checks everything but the presence of the targets (`Startup.BootSound`, `Startup.StartWithoutTarget`).

## Model

| member | source | states |
|---|---|---|
| `ControlInvariant.StepKeeps` | internal/control/server.go:489-1459 | every request, whatever its store calls and saves answer, keeps: HTTP and SSH aliases disjoint, SSH user names distinct, every route valid and under its own prefixed reference, every target in the store with the right kind, and the proxy in use equal to the stored one |
| `ControlInvariant.RunKeeps` | internal/control/server.go:311-368 | the same over every run of requests |
| `ControlRollback.ErrorRestores` | internal/control/server.go:489-1073 | a request other than stopAll that reports an error leaves both registries and the proxy exactly as before |
| `ControlRollback.FailedStopAll` | internal/control/server.go:1365-1396 | a failed stopAll restores the HTTP registry always, and the SSH registry if and only if it was the SSH save that failed or no SSH route was enabled |
| `ControlRollback.StopAllCanHalfApply` | internal/control/server.go:1373-1382 | a state and an answer where stopAll reports an error and an SSH route stays switched off |
| `ControlRollback.StoreFrame` | internal/control/server.go:489-1459 | a request touches the secret store at one reference at most |
| `ControlRollback.IdentitySurvives` | internal/sshgw/identity.go:14-54 | the stored host identity survives a request if and only if the request is not an SSH route creation under the alias host-identity that gets as far as storing its target |
| `ControlRollback.IdentityOverRuns` | internal/sshgw/identity.go:14-54 | over every run the host identity stays the same if and only if no turn takes its reference: once taken it never comes back |
| `ControlRollback.HostIdentityCanBeTaken` | internal/control/server.go:869-880 | a request that does replace the host key |
| `ControlRollback.EnabledGrows` | internal/control/server.go:1334-1362 | a request enables no route but the one it names in set_route_enabled(alias, true) |
| `ControlRollback.EnabledOverRuns` | internal/control/server.go:489-1431 | over every run, with any saves failing, an enabled route was enabled before or by such a request |
| `ControlRollback.StoppedStaysStopped` | internal/control/server.go:1365-1396 | after a successful stopAll a route stays disabled over every run that does not ask to enable it |
| `ControlDisk.HttpSaveExact` | internal/routes/file_store.go:128-184 | a save leaves an HTTP file that loads as a given registry exactly when it installed a document of the same normalisation within the size limit, or left a file that already did |
| `ControlDisk.SshSaveExact` | internal/sshgw/file_store.go:132-193 | the same for the SSH file |
| `ControlDisk.DiskAfterRequest` | internal/control/server.go:489-1073 | for every request but stopAll, exactly which answers of its save leave disk and registries in agreement |
| `ControlDisk.DiskAfterStopAll` | internal/control/server.go:1365-1396 | the same for stopAll with its three saves |
| `ControlDisk.CleanStepAgrees` | internal/control/server.go:489-1431 | if failing saves leave the old file and files fit the limit, disk and registries agree after every request except a failed stopAll |
| `ControlDisk.DiskOverRuns` | internal/control/server.go:489-1431 | the same over runs, together with the invariant |
| `ControlDisk.CountUnseen` | internal/routes/registry.go:255-281 | usage counters do not show on disk |
| `Order.LessExactly` | internal/routes/file_store.go:152-152 | routes are ordered byte by byte: a proper prefix first, else the smaller byte at the first difference |
| `Text.LowerExactly` | internal/control/server.go:1438-1438 | lower-casing changes the case of letters and nothing else |
| `Text.TrimSpaceExactly` | internal/control/server.go:715-715 | trimming takes away the white space at both ends and nothing else |
| `Maps.ListingInjective` | internal/routes/file_store.go:128-150 | the sorted listing in a file determines the registry |
| `Startup.BootSound` | cmd/airlockd/main.go:164-210 | whatever the files and the store hold, a daemon that starts satisfies the whole invariant if and only if every loaded route has its target stored |
| `Startup.BootRecovers` | cmd/airlockd/main.go:164-210 | a restart from files that agree comes up if and only if the host identity is there as a key, or is absent and can be stored; then with the normalised registries, the same proxy, that identity or a new one, and files that agree again |
| `Startup.RestartAfterRun` | cmd/airlockd/main.go:164-210 | the same after any run with clean saves and no failed stopAll; the identity the run started with comes back if and only if no turn took its reference |
| `Startup.HostIdentityRouteBlocksStart` | internal/sshgw/identity.go:14-27 | with a registered SSH route called host-identity the daemon does not start, whatever is on disk |
| `Startup.CreationBlocksStart` | internal/control/server.go:869-900 | every successful creation of such a route, disk and registries agreeing, leaves files and a store from which the daemon does not start |
| `Startup.CreationCanBlockStart` | internal/control/server.go:869-900 | such a creation, accepted and saved |
| `Startup.StartWithoutTarget` | cmd/airlockd/main.go:164-210 | a start that comes up with a route whose target is not stored |
| `Growth.TooLongToLoad` | internal/sshgw/file_store.go:54-75 | a file at least as long as the rules written in it is refused once the rules of all routes together pass the limit |
| `Growth.GrowthBlocksStart` | internal/sshgw/file_store.go:132-193 | a run of 1024 successful creations of about a kilobyte each, after which the daemon does not start |
| `Startup.HttpDecoded` | internal/routes/registry.go:188-196 | every file that loads yields a registry of valid routes under their own references |
| `Startup.SshDecoded` | internal/sshgw/registry.go:197-205 | every file that loads yields valid routes with distinct aliases and user names |
| `ControlEffects.CreateHttpExactly` | internal/control/server.go:489-545 | an HTTP route is created if and only if the input, its alias and its egress are acceptable, the alias is free, a key is generated, and put and save succeed; it is then registered disabled, with GET and HEAD only, under that key and that target |
| `ControlEffects.CreateLlmExactly` | internal/control/server.go:547-631 | the same for LLM routes: accepted input is refused at registration only for the alias; the limits are the ones given or 60 a minute and 4 at once, the models the trimmed ones |
| `ControlEffects.CreateSshExactly` | internal/control/server.go:812-906 | the same for SSH routes, which then allow every valid command or exactly the one named |
| `ControlEffects.FailedCreationLeavesNothing` | internal/control/server.go:520-539 | a creation that fails leaves no new or changed secret, as long as it can be removed again |
| `ControlEffects.LlmBasePathExactly` | internal/control/server.go:562-563 | the stored path is the given one without its trailing slashes and then without one final /v1 |
| `ControlEffects.SlashCanStay` | internal/control/server.go:562-563 | a path from which the stored one still ends in a slash |
| `ControlEffects.UpdateSshTargetExactly` | internal/control/server.go:1005-1037 | a target is replaced if and only if the input is accepted, the route registered and the put works; the entry then has the given address, user name, password and host key, and nothing else changes |
| `ControlEffects.SetEnabledExactly` | internal/control/server.go:1334-1362 | a route is switched if and only if it is registered and its registry saved; its setting alone is as asked |
| `ControlEffects.StopAllExactly` | internal/control/server.go:1365-1396 | stopAll succeeds if and only if its saves do; every route is then disabled and otherwise as before |
| `ControlEffects.ConfigureProxyExactly` | internal/control/server.go:1433-1449 | a proxy is taken if and only if its URL is acceptable and the put works; it is then stored and in use as given, with its scheme in lower case |
| `ControlEffects.ClearProxyExactly` | internal/control/server.go:1451-1459 | the proxy goes if and only if the deletion works |
| `ControlEffects.RecordUsageExactly` | internal/routes/registry.go:255-268 | each counter grows by what was used, modulo 2 to the 64, for a tracked LLM route only |
| `ControlEffects.ResetUsageExactly` | internal/routes/registry.go:270-281 | the counters of an LLM route become zero and nothing else changes |
| `ControlEffects.SetLlmPolicyExactly` | internal/control/server.go:633-661 | an accepted policy of an LLM route is never refused at registration, and nothing but the policy changes |
| `ControlEffects.RotateLlmExactly` | internal/control/server.go:663-699 | exactly when a key is rotated; nothing but the digest changes |
| `ControlEffects.SetSshPolicyExactly` | internal/control/server.go:912-968 | exactly when a policy is taken; afterwards exactly the named commands are allowed, and key, fingerprints, target, rules and setting are as before |
| `ControlEffects.SetSshReplacementsExactly` | internal/control/server.go:983-1003 | exactly when rules are taken; nothing but the rules changes |
| `ControlEffects.RotateSshExactly` | internal/control/server.go:1039-1073 | exactly when a credential is rotated; nothing but the digest changes |
| `ControlEffects.DeleteExactly` | internal/control/server.go:1398-1431 | a deletion succeeds if and only if the alias is registered and its registry is saved; the alias is then free and the target gone unless the store refuses |
| `ControlEffects.OthersUntouched` | internal/control/server.go:489-1431 | a request other than stopAll, successful or not, changes no route but the one it names |
| `ControlServer.Server.Handle` | internal/control/server.go:311-368 | the handlers as they run, with their rollback, do exactly what the transaction says and keep the invariant |
| `ControlServer.Server.SaveHttp` | internal/control/server.go:535-539 | saving a reachable registry is never refused, and what it writes does not depend on the order of List |
| `ControlServer.Server.SaveSsh` | internal/control/server.go:896-900 | the same for SSH |
| `ControlServer.Server.InstallHttp` | internal/control/server.go:530-539 | a new route is in the registry if and only if it is valid and the save succeeded; otherwise the registry is as before |
| `ControlServer.Server.InstallSsh` | internal/control/server.go:891-900 | the same for SSH |
| `ControlServer.Server.AddHttpRoute` | internal/control/server.go:499-539 | the whole creation, with the secret removed again on failure when the store allows it |
| `ControlServer.Server.AddSshRoute` | internal/control/server.go:835-900 | the same for SSH, with the user name looked up through the registry scan |
| `ControlServer.Server.ReplaceHttpRoute` | internal/control/server.go:645-660 | upserting the previous route after a failed save restores the registry |
| `ControlServer.Server.ReplaceSshRoute` | internal/control/server.go:955-966 | the same for SSH, where the user name check must let the previous route back in |
| `ControlServer.Server.CreateHttpRoute` | internal/control/server.go:489-545 | refused input changes nothing; accepted input ends with route, target and file all in place, or with both registries as before |
| `ControlServer.Server.CreateLlmRoute` | internal/control/server.go:547-631 | the same for LLM routes, with default limits and the base path cut back |
| `ControlServer.Server.SetLlmPolicy` | internal/control/server.go:633-661 | the policy of an LLM route is replaced and saved, or the former route is back |
| `ControlServer.Server.RotateLlmKey` | internal/control/server.go:663-699 | only the key digest changes, and only if it was saved |
| `ControlServer.Server.ResetUsage` | internal/control/server.go:701-706 | only the counters of an LLM route change; nothing is saved |
| `ControlServer.Server.CreateSshRoute` | internal/control/server.go:812-906 | the same as for HTTP, refusing an alias or a user name in use |
| `ControlServer.Server.SetSshPolicy` | internal/control/server.go:912-968 | name, user name, timeout, policy and egress change together and are saved, or the former route is back |
| `ControlServer.Server.SetSshReplacements` | internal/control/server.go:983-1003 | only the replacement rules change, and only if they were saved |
| `ControlServer.Server.UpdateSshTarget` | internal/control/server.go:1005-1037 | only the stored target of that route changes; no file is written |
| `ControlServer.Server.RotateSshCredential` | internal/control/server.go:1039-1073 | only the credential digest changes, and only if it was saved |
| `ControlServer.Server.SetRouteEnabled` | internal/control/server.go:1334-1362 | the setting is switched, or switched back after a failed save |
| `ControlServer.Server.RestoreHttp` | internal/control/server.go:1376-1378 | the restoring loop, in any order of the list, gives back exactly the registry from before |
| `ControlServer.Server.RestoreSsh` | internal/control/server.go:1387-1389 | the same for SSH |
| `ControlServer.Server.StopAllRoutes` | internal/control/server.go:1365-1396 | both registries disabled and saved, or what the two kinds of failure leave, with the second attempt at the HTTP file |
| `ControlServer.Server.DeleteRoute` | internal/control/server.go:1398-1431 | the route goes if and only if the save succeeds; a target that cannot be removed is no error |
| `ControlServer.Server.ConfigureProxy` | internal/control/server.go:1433-1449 | the stored proxy and the one in use change together or not at all |
| `ControlServer.Server.ClearProxy` | internal/control/server.go:1451-1459 | the stored proxy and the one in use go away together or not at all |
| `ControlServer.NormalizeModels` | internal/control/server.go:708-726 | the loop yields the set of trimmed names, or nothing when one is not acceptable |
| `Secrets.SecretStore.Store` | internal/secrets/keychain_store.go:61-84 | a put takes effect if and only if it reports success, and only at its reference |
| `Secrets.SecretStore.DeleteTarget` | internal/secrets/keychain_store.go:262-277 | a delete that fails changes nothing |
| `Secrets.Manager.Configure` | internal/egress/manager.go:84-101 | a valid URL replaces the proxy, an invalid one changes nothing |
| `Names.ReferencesApart` | internal/sshgw/identity.go:14-14 | route, SSH, proxy and identity references never meet, but for the alias host-identity |
| `HttpRoutes.Registry.Upsert` | internal/routes/registry.go:198-207 | a route is stored if and only if it is valid |
| `HttpRoutes.Registry.List` | internal/routes/registry.go:231-240 | every route once, in any order |
| `HttpRoutes.Registry.SetEnabled` | internal/routes/registry.go:242-253 | one setting changes and nothing else |
| `HttpRoutes.Registry.RecordUsage` | internal/routes/registry.go:255-268 | 64-bit counters of a tracked LLM route, with wrap-around |
| `HttpRoutes.Registry.ResetUsage` | internal/routes/registry.go:270-281 | the counters of one LLM route become zero |
| `HttpRoutes.Registry.Delete` | internal/routes/registry.go:283-293 | the route is gone and handed back |
| `HttpRoutes.Registry.DisableAll` | internal/routes/registry.go:295-303 | the loop over the map disables every route and changes nothing else |
| `SshRoutes.Registry.Upsert` | internal/sshgw/registry.go:207-220 | a route is stored if and only if it is valid and no other route uses its user name |
| `SshRoutes.Registry.LookupByUsername` | internal/sshgw/registry.go:232-241 | the scan, in any map order, finds the one enabled owner of the name |
| `SshRoutes.Registry.GetByUsername` | internal/sshgw/registry.go:243-252 | the scan, in any map order, finds the one owner of the name |
| `SshRoutes.Registry.List` | internal/sshgw/registry.go:264-272 | every route once, in any order |
| `SshRoutes.Registry.SetEnabled` | internal/sshgw/registry.go:274-284 | one setting changes and nothing else |
| `SshRoutes.Registry.SetLocalUsernameAndCommandPolicy` | internal/sshgw/registry.go:290-314 | policy and name change together, exactly when the route is there, stays valid and the name is free; otherwise nothing does |
| `SshRoutes.Registry.Delete` | internal/sshgw/registry.go:316-325 | the route is gone and handed back |
| `SshRoutes.Registry.DisableAll` | internal/sshgw/registry.go:327-334 | the loop over the map disables every route and changes nothing else |
| `SshRoutes.ApplyOpsKeep` | internal/sshgw/registry.go:207-334 | over every sequence of registry operations routes stay valid, keyed by alias, and apart by user name |
| `SshRoutes.RouteOfUnique` | internal/sshgw/registry.go:232-252 | any route with the user name is the one the index gives |
| `HttpFiles.LoadOfSave` | internal/routes/file_store.go:59-184 | loading what was saved gives the normalised routes in alias order if and only if the text fits the size limit, for every list of savable routes |
| `HttpFiles.RestorePersist` | internal/routes/file_store.go:132-150 | one stored route reads back as its normalisation |
| `HttpFiles.NormalKeeps` | internal/routes/file_store.go:103-126 | normalising changes the spelling of the kind, the case of the methods and the counters, and nothing else |
| `HttpFiles.NormalIdempotent` | internal/routes/file_store.go:103-126 | normalising twice is normalising once |
| `HttpFiles.EncodeOfRange` | internal/routes/file_store.go:128-150 | the document is the sorted list of stored routes, whatever order the map was traversed in |
| `HttpFiles.LoadOfRegistry` | internal/routes/file_store.go:128-184 | a registry is never refused by Save and loads as its normalisation |
| `HttpFiles.FileStore.Load` | internal/routes/file_store.go:59-126 | the decoding loop with its duplicate checks |
| `HttpFiles.FileStore.Save` | internal/routes/file_store.go:128-184 | refuses an unsavable list; otherwise the file changes according to the three outcomes |
| `HttpFiles.EncodeRoutes` | internal/routes/file_store.go:128-150 | the encoding loop refuses exactly the lists with an unsavable route |
| `SshFiles.LoadOfSave` | internal/sshgw/file_store.go:54-193 | loading what was saved gives the normalised routes in alias order if and only if the text fits the size limit, for every list of savable routes |
| `SshFiles.RestorePersist` | internal/sshgw/file_store.go:132-165 | one stored route reads back as its normalisation |
| `SshFiles.NormalKeeps` | internal/sshgw/file_store.go:96-128 | normalising changes the spelling of the user name and the timeout, and nothing else |
| `SshFiles.NormalIdempotent` | internal/sshgw/file_store.go:96-128 | normalising twice is normalising once |
| `SshFiles.EncodeOfRange` | internal/sshgw/file_store.go:132-165 | the document is the sorted list of stored routes, whatever order the map was traversed in |
| `SshFiles.LoadOfRegistry` | internal/sshgw/file_store.go:132-193 | a registry is never refused by Save and loads as its normalisation |
| `SshFiles.FileStore.Load` | internal/sshgw/file_store.go:54-130 | the decoding loop with its duplicate checks |
| `SshFiles.FileStore.Save` | internal/sshgw/file_store.go:132-193 | refuses an unsavable list; otherwise the file changes according to the three outcomes |
| `SshFiles.EncodeRoutes` | internal/sshgw/file_store.go:132-165 | the encoding loop refuses exactly the lists with an unsavable route or a repeated user name |
| `HttpFiles.VersionOneIsHttp` | internal/routes/file_store.go:110-113 | a version 1 entry becomes a plain HTTP route |
| `RouteCodec.StoredOfRange` | internal/routes/file_store.go:128-150 | the stored routes of a registry in alias order, whatever order it was listed in |
| `RouteCodec.Decode` | internal/routes/file_store.go:89-126 | the loop stops at the first duplicate or undecodable entry and otherwise returns all routes in order |
| `Credentials.Put` | internal/secrets/keychain_windows.go:31-62 | all states passed through lie before or after one switch of the index; success reads as the new value, failure as the old one, and a single failing write leaves the entries exactly as before |
| `Credentials.WriteChunks` | internal/secrets/keychain_windows.go:38-52 | writes the chunks in order; when one write fails and the deletions work the entries are exactly as before |
| `Credentials.Get` | internal/secrets/keychain_windows.go:64-85 | reads the whole value, not found, or a decoding error; a failed call is reported |
| `Credentials.Delete` | internal/secrets/keychain_windows.go:87-98 | entries only go away; success reads as not found |
| `Credentials.DeleteChunks` | internal/secrets/keychain_windows.go:135-139 | removes chunks of one generation and touches nothing else |
| `Credentials.LoadIndexFrom` | internal/secrets/keychain_windows.go:100-117 | the index as parsed, missing, or invalid |
| `Credentials.IndexRoundTrip` | internal/secrets/keychain_windows.go:100-117 | an index reads back if and only if it has 1 to 1024 chunks |
| `Credentials.ChunkNamesApart` | internal/secrets/keychain_windows.go:127-133 | names of different chunks differ |
| `Credentials.OtherRead` | internal/secrets/keychain_windows.go:127-139 | entries of one reference cannot change what another reads |
| `Credentials.PutIsAtomic` | internal/secrets/keychain_windows.go:31-62 | wherever the process stops during Put the reference reads as the whole old or the whole new value, and every other reference as before |
| `Credentials.DeleteIsAtomic` | internal/secrets/keychain_windows.go:87-98 | wherever it stops during Delete the reference reads as the whole old value or not found |
| `Credentials.ReadDuringPut` | internal/secrets/keychain_windows.go:31-85 | a Get interleaved call by call with a Put returns the whole old value, the whole new one, or not found |
| `Credentials.ReadDuringDelete` | internal/secrets/keychain_windows.go:64-98 | a Get interleaved with a Delete returns the whole old value or not found |
| `Credentials.RunRefinesMap` | internal/secrets/keychain_windows.go:31-98 | over every run with failing calls and stops anywhere, each reference reads as a value a plain map could hold: the new one after a success, the old one after a Put that reported an error, either one after a stop |
| `Credentials.Perform` | internal/secrets/keychain_windows.go:31-98 | whatever the keyring answers, any sequence of operations with unused generations is such a run, without failures a clean one |
| `Credentials.RunStaysTidy` | internal/secrets/keychain_windows.go:31-139 | after any run without failing calls and with values within the limit, the entries of every reference are exactly its index and its chunks, if they were so at the start |
| `Credentials.CallStaysTidy` | internal/secrets/keychain_windows.go:31-139 | one clean call keeps that for its own reference and for every other |
| `Credentials.SwitchIndex` | internal/secrets/keychain_windows.go:53-61 | overwriting the index is the switch; failing there removes the new chunks, succeeding the old ones |
| `Credentials.FreshAfterCall` | internal/secrets/keychain_windows.go:119-139 | a generation that a call does not use stays unused |
| `Credentials.PutReadable` | internal/secrets/keychain_windows.go:31-62 | what a completed Put wrote is readable if and only if it is at most 1024 * 1200 bytes; beyond that the entry cannot be decoded |
| `Migration.Migrate` | internal/control/server.go:379-444 | succeeds if and only if every secret the daemon lives on can be copied; then the destination resolves each to the same value; the source is not written, the destination loses nothing |
| `Migration.ReferencesExactly` | internal/control/server.go:457-465 | the proxy, the host identity and every route target, and nothing else |
| `Migration.CopyEntry` | internal/control/server.go:391-399 | resolve, put and verify of one secret |
| `Migration.Cleanup` | internal/control/server.go:446-476 | removes exactly the references whose deletion works and warns if and only if one did not |
| `Migration.Collect` | internal/control/server.go:457-465 | the reference list of the cleanup, in any order |
| `Settings.Desktop.Apply` | apps/desktop/src-tauri/src/lib.rs:3092-3190 | at every step and failure point the store of the running daemon, and before the last step the store that the settings file names, hold every secret the daemon lives on; after it the settings in memory and on disk still name such stores if and only if the change does not clean the store that the file names; it succeeds exactly when every step does, and with working deletions neither a success nor a rollback leaves a copy in the store given up |
| `Settings.ChangeIsSafe` | apps/desktop/src-tauri/src/lib.rs:3131-3174 | the same for the part after the migration, as a course of states |
| `Settings.ChangeLeavesNoCopy` | apps/desktop/src-tauri/src/lib.rs:3131-3174 | when the store changes and deletions work, a success leaves none of the references in the old store, and a failure that leaves the old daemon running none in the new one |
| `Settings.ChangeSucceeds` | apps/desktop/src-tauri/src/lib.rs:3131-3174 | the settings change if and only if they are saved, the new daemon starts and the lock is sound; then file and daemon follow them |
| `Settings.ExposureHappens` | apps/desktop/src-tauri/src/lib.rs:3143-3160 | a change after which the settings file names a cleaned store |
| `Settings.CleanupServes` | internal/control/server.go:446-476 | cleaning never touches the store in use |
| `Settings.MigrationKeeps` | internal/control/server.go:379-444 | a failed migration, too, leaves every named store with its secrets |
| `Settings.StaleProxyHappens` | internal/control/server.go:418-428 | a proxy left over in the destination that comes into use |
| `Settings.ProxyCarriedOver` | internal/control/server.go:418-428 | after a migration the new daemon uses the old proxy if and only if the old store had one or the new store held none |
| `Settings.Desktop.Launch` | apps/desktop/src-tauri/src/lib.rs:3041-3067 | a start reads or creates the identity, then the proxy; it never removes an entry |
| `Settings.Desktop.Change` | apps/desktop/src-tauri/src/lib.rs:3131-3174 | the change goes through exactly the states of its course |
| `Settings.Desktop.RollBackTo` | apps/desktop/src-tauri/src/lib.rs:3143-3160 | the rollback goes through exactly its states |
| `Settings.Desktop.RequestMigrate` | internal/control/server.go:379-444 | refused for the store in use; an answer that is lost counts as a failure |
| `Settings.Desktop.RequestCleanup` | internal/control/server.go:446-476 | refused for the store in use |
| `Settings.Desktop.Restart` | apps/desktop/src-tauri/src/lib.rs:3217-3232 | starting the daemon, or the application, anew keeps the secrets reachable |
| `Sessions.SessionKeeps` | internal/sshgw/server.go:298-437 | over every sequence of channel requests, each meeting its own registry, and of calls of the worker: at most one thing is started, the enabled route of the authenticated alias and user name permitted it at that moment, and every request has exactly the replies it wants, but for the one whose worker is still on its way |
| `Sessions.SessionRight` | internal/sshgw/server.go:298-651 | over every run: what is started is what the request at its index asks for (an exec its payload, sftp for the subsystem, a shell or the only command), every answer is the one due (yes to the started request if and only if its worker got past the start), the worker is where its calls brought it, the terminal replayed is the last one asked for, and the loop listens exactly until a start, an exec or shell request, or the end of the channel |
| `Sessions.DecideMeans` | internal/sshgw/server.go:342-431 | the switch, request by request: the start asked for, or the answer on the spot, the terminal remembered and whether the session ends |
| `Sessions.PathKept` | internal/sshgw/server.go:439-651 | a worker makes its calls in order and goes back at the first failure |
| `Sessions.WorkerKeeps` | internal/sshgw/server.go:439-651 | along every path of execute, executeSFTP and interactiveShell, whichever call fails, the request is answered exactly once |
| `Sessions.WorkerReturns` | internal/sshgw/server.go:439-651 | however its calls end, a worker returns after seven of them at the latest |
| `Sessions.FinishedIsAnswered` | internal/sshgw/server.go:298-651 | once the worker has returned, each dequeued request has exactly one reply if it wants one and none otherwise |
| `Sessions.PermittedIsStarted` | internal/sshgw/server.go:356-431 | before the first start a request starts something if and only if the policy permits it |
| `Sessions.Session.Handle` | internal/sshgw/server.go:298-437 | the event loop follows the state machine |
| `Sessions.Session.Take` | internal/sshgw/server.go:323-431 | one dequeued request, in the loop or in the forwarder of a shell |
| `Sessions.Session.Proceed` | internal/sshgw/server.go:439-651 | one call of the worker, with its own answer on failure |
| `Sessions.AuthenticatePassword` | internal/sshgw/server.go:225-239 | reports a disabled route if and only if the one route with that user name is disabled, and grants that route only with its credential |
| `Sessions.AuthenticatePublicKey` | internal/sshgw/server.go:241-255 | the same with key fingerprints |
| `Paths.SettlesExactly` | internal/httpgw/handler.go:394-423 | the loop accepts exactly the strings whose n-fold decoding is defined and free of dot segments, backslash and NUL for every n, and settles within its rounds |
| `Paths.UnescapeExactly` | internal/httpgw/handler.go:411-414 | a string decodes to another if and only if it is a spelling of it, where a byte is itself or a percent sign and its two hexadecimal digits in either case |
| `Paths.EscapeDecodes` | internal/httpgw/handler.go:411-414 | every byte, in every spelling of its digits, in front of anything that decodes |
| `Paths.EscapeFails` | internal/httpgw/handler.go:411-414 | any other percent sign fails to decode |
| `Paths.HiddenRefused` | internal/httpgw/handler.go:394-423 | a backslash, a NUL or a dot segment is refused however often it is percent-encoded |
| `Paths.HiddenDotsRefused` | internal/httpgw/handler.go:403-408 | so is every path with a segment that is a percent spelling of a dot segment, nested to any depth |
| `Paths.UnsafePath` | internal/httpgw/handler.go:394-423 | both candidates must be accepted; what is accepted stays clean under every decoding, and any hidden dot segment makes the answer true |
| `Paths.ParseExactly` | internal/httpgw/handler.go:379-392 | a path gives an alias and a suffix if and only if it is the prefix, that alias and that suffix, and suffix and raw path stay clean under every decoding and settle in time |
| `Paths.UnsafeCandidate` | internal/httpgw/handler.go:397-421 | the loop over a changing string |
| `Paths.UnescapeShortens` | internal/httpgw/handler.go:411-418 | every decoding that changes the string shortens it |
| `Paths.UpstreamStaysUnderBase` | internal/httpgw/handler.go:379-436 | for every accepted suffix, base and number of decodings, the cleaned segments of the joined path are those of the base followed by those of the suffix |
| `Paths.RedirectAcceptedExactly` | internal/httpgw/handler.go:495-499 | the text test is segment containment, except for a root base, where only the root itself passes |
| `Paths.Response.RewriteLocation` | internal/httpgw/handler.go:482-510 | a redirect is rewritten if and only if it has the same origin and an allowed path; otherwise the header is left alone |
| `Paths.RedirectRoundTrip` | internal/httpgw/handler.go:379-510 | an accepted plain redirect routes back to its alias, and joining its suffix to the base gives the same cleaned path if and only if cleaning the base commutes with decoding it |
| `Paths.RedirectKeepsQuery` | internal/httpgw/handler.go:504-508 | a rewritten redirect carries the query it came with |
| `Paths.NoPopCommutes` | internal/httpgw/handler.go:425-436 | that is so for every base without a parent segment |
| `Paths.EscapedSlashPopped` | internal/httpgw/handler.go:425-436 | and fails when a final parent segment pops one that holds an escaped slash |
| `Limiter.RunKeeps` | internal/httpgw/handler.go:335-377 | over every interleaving of acquires, rotations and releases, with any clock readings: in every state, replaced ones included, current is the number of grants not released, at most the concurrency limit, and requests is at most the rate; if the clock does not go back, no minute holds more than twice the rate of admitted requests, and no window more than the rate |
| `Limiter.GrantedExactly` | internal/httpgw/handler.go:335-369 | over every run an LLM acquire is granted if and only if fewer grants of the matching state are outstanding than may be and fewer requests were admitted in the open window than may be; the grant is on record at its time |
| `Limiter.StateKeptExactly` | internal/httpgw/handler.go:341-350 | the state is kept if and only if key and both limits are the same; otherwise a new one takes its place and the old ones stay |
| `Limiter.FirstIsGranted` | internal/httpgw/handler.go:355-369 | a route that allows anything serves its first request |
| `Limiter.CountersTell` | internal/httpgw/handler.go:351-369 | the counters are the outstanding grants and the admissions of the open window |
| `Limiter.NextGood` | internal/httpgw/handler.go:335-377 | one acquire or release keeps that for every state |
| `Limiter.AcquiredGood` | internal/httpgw/handler.go:335-369 | an acquire keeps it, whether the state is kept, created or replaced |
| `Limiter.ReleasedGood` | internal/httpgw/handler.go:370-376 | a release finds the count above zero, so its guard never fails |
| `Limiter.RunTimely` | internal/httpgw/handler.go:351-369 | with a clock that does not go back the history of every state stays sound |
| `Limiter.RateBound` | internal/httpgw/handler.go:351-369 | in a sound history requests twice the rate apart lie a minute apart |
| `Limiter.OpenWindowSound` | internal/httpgw/handler.go:351-354 | opening a window keeps the history sound |
| `Limiter.AdmitSound` | internal/httpgw/handler.go:367-368 | so does admitting a request within the rate |
| `Limiter.RetryOpensWindow` | internal/httpgw/handler.go:359-365 | whoever comes back after Retry-After finds a new window |
| `Limiter.Limits.Acquire` | internal/httpgw/handler.go:335-377 | granted exactly when a slot and a place in the window are free, refused by the limit that is reached with the least Retry-After that passes the window; a new closure per grant, and only the state of that route is touched |
| `Limiter.Limits.StateFor` | internal/httpgw/handler.go:339-350 | a matching state is kept; a changed key or policy puts a new one in its place and leaves the old one alone |
| `Limiter.Limits.TryAcquire` | internal/httpgw/handler.go:351-369 | the checks under the lock, in their order |
| `Limiter.Limits.Finish` | internal/httpgw/handler.go:370-376 | one step of the machine: a release, of a replaced state too, touches only its own state |
| `Limiter.Serve` | internal/httpgw/handler.go:335-377 | the objects follow the machine over every run |
| `Logs.MemoryRecorder.Record` | internal/activity/recorder.go:41-59 | the retained log is the last 200 of all accepted events |
| `Logs.MemoryRecorder.List` | internal/activity/recorder.go:61-72 | the newest entries, newest first |
| `Logs.FileCommandAudit.Record` | internal/sshgw/audit.go:89-114 | the retained log is the last 100 of all accepted events; a failed save drops only its own |
| `Logs.FileCommandAudit.List` | internal/sshgw/audit.go:116-127 | the newest entries, newest first |
| `Logs.LastAppend` | internal/activity/recorder.go:50-58 | trimming at every append keeps what trimming once would keep |
| `Logs.NewestExactly` | internal/activity/recorder.go:61-72 | as many entries as asked for and there are, counted from the end backwards |
| `Logs.LastExactly` | internal/activity/recorder.go:50-58 | the retained log is the end of the history in its order |
| `Logs.RecentActivities` | internal/control/server.go:1473-1502 | the list is the newest 50 of everything retained in both logs when each is chronological |
| `Logs.TruncateBeforeMerge` | internal/control/server.go:1473-1502 | cutting each log before merging loses nothing |
| `Logs.SortIsMerge` | internal/control/server.go:1492-1497 | the stable sort of two newest-first lists merges them |
| `Logs.SortDescending` | internal/control/server.go:1492-1497 | the sort orders its input and loses none of it |
| `Logs.NothingNewerLeftOut` | internal/control/server.go:1473-1502 | no entry left out is newer than one in the list |
| `Usage.SplitIndependent` | internal/httpgw/llm.go:24-36 | however a response is split, the capture depends on its bytes alone and is cut exactly beyond 8 MiB |
| `Usage.UsageCapture.Write` | internal/httpgw/llm.go:24-36 | one write feeds the capture, which holds the whole stream or is cut |
| `Usage.UsageCapture.TokenUsage` | internal/httpgw/llm.go:38-60 | the maximum over all data lines in streaming mode, the usage of the one document otherwise |
| `Usage.OwnUsageFields` | internal/httpgw/llm.go:90-117 | which fields count: input_tokens before prompt_tokens, output_tokens before completion_tokens, and the cache tokens on top when there is an input_tokens field |
| `Usage.LookupExactly` | internal/httpgw/llm.go:90-117 | of several fields with one key the last counts |
| `Usage.DataOfExactly` | internal/httpgw/llm.go:46-54 | which lines carry a document |
| `Usage.ExtractBounds` | internal/httpgw/llm.go:71-88 | the extracted usage bounds that of every nested response or message |
| `Usage.ExtractReached` | internal/httpgw/llm.go:71-88 | and each component is that of one of them |

## Left out

- Interleaving of usage counters with handlers: requests are atomic here, while counters are updated outside the mutation lock, so a rollback may also take back counts recorded meanwhile.
- JSON, URL, hexadecimal and base64 text: a document or URL stands for its text and text that does not parse is an absent value; percent-decoding, path cleaning, the index text and decimal numbers are modelled.
- Non-ASCII text: a character stands for one byte, so lengths count bytes; upper case, lower case and white space are those of ASCII.
- Digests: SHA-256 and constant-time comparison are equality of opaque values, and keys come as their digests; random generations are assumed unused.
- SSH private-key targets: a stored SSH target has a password, as every target that the control requests create has.
- Host key and address syntax, and the check that a target is not the daemon's own listener: the request carries the outcome.
- Slot semaphores of the HTTP and SSH gateways: bounded counters that would only add easy members.
- Keyword rewriting of commands, LLM request preparation and the output limit: formatting of one request with no state behind it.
- Route health, probes, summaries, permission strings and error texts: reporting only.
- Network, TLS, SSH handshakes, proxies' dialing, HTTP transport: input and output over libraries.
- File permissions, symbolic links and syncing: only the three outcomes of a save remain.
- Zeroing of buffers: not observable here.
- Confirmation dialogs and the rest of the desktop user interface: the answer to the question is an input.
- Mutations between migrate and restart: the routes are fixed during a settings change.
- Concurrent registry changes between the two lookups of one authentication: both see the same registry.
- Startup wiring: the start of the daemon is a function of its files and its store; listeners, the audit file and the Web interface are not part of it.
- Settings.Desktop.Launch: a daemon that cannot read its files or secrets at all counts as one that does not spawn.
- ControlServer.Server.ConfigureProxy: the removal of the stored proxy after a refused Configure is not modelled, because Configure cannot refuse a URL that was validated before.
- Sessions.Session.Handle: exit statuses, audit and activity records, and the data copied through the channel are not part of the state.
- Sessions.Session.Proceed: what a call sends upstream, and an answer that cannot be delivered, which counts as sent.
- Growth.GrowthBlocksStart: the length of the encoded text is only bounded from below, by the replacement rules it contains.
