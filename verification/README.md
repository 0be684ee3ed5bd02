# MCP gateway: verified model

A Dafny model of the gateway's most stateful parts, with proofs about whole runs. The gateway federates
upstream MCP servers and A2A agents behind one endpoint: a broker keeps one manager per server and publishes
their tools into one shared registry, another broker caches agent cards, an Envoy external processor routes
and rewrites traffic, and a controller writes the configuration both brokers read.

## What is modelled

| part | modules |
|---|---|
| A2A card cache as a concurrent protocol, its commit guard, its objects, and what it serves | `CardCache`, `FetchInputs`, `CardBroker`, `Validation`, `Serving` |
| federated registry: one manager, its objects, reloads, routing, whole runs | `Registry`, `Manager`, `Reload`, `Routing`, `Federation` |
| stream processors: framing, elicitation rewriter, event filter, A2A observer | `Framing`, `Rewriter`, `EventFilter`, `Observer` |
| elicitation ids over all concurrent streams and replies | `IdMap`, `Elicitation` |
| the external-processing loop | `ExtProc` |
| configuration writers and prefix ownership | `ConfigWriter`, `PrefixOwnership`, `Config` |
| stores indexed by time or history | `SessionCache`, `NotifyWindow`, `ScopeStore` |
| strings and bytes | `Text` |

Objects the source updates in place are classes, their loops are loops with invariants, and each method is
proved against a function of the old state; the lemmas are about these functions. Protocols are state machines:
a system, events that carry whatever the environment or map iteration leaves open, and a total step function in
which an impossible event changes nothing, so a statement about `Exec` of any event sequence is a statement
about every interleaving. Calls into libraries (JSON, SHA-256, URL parsing, trimming, UUIDs, hashing) are
functions carried in a parameter; nothing is required of them beyond freshness of UUIDs and, in the lemmas about
what a receiver reads, that JSON the gateway wrote reads back and holds no raw newline.

## Where the code falls short of the natural property

In each case the code is modelled as it is, and a lemma gives the exact condition, with the failing input where it
does not hold.

- Tools are diffed by name, so a tool listed again with a changed definition keeps the old one on the gateway
  (`Registry.ServedDefinitionIsCurrentIff`).
- The conflict check and the publication are not atomic across managers (`Registry.UnserialisedPublicationIff`);
  the registry theorems therefore treat one manage pass as one step.
- The prefix fallback of the routing table takes any matching prefix, the broker takes the longest
  (`Routing.FallbacksAgreeIffPrefixesApart`).
- Overlapping agent reloads can evict a live card (`CardCache.OverlappingReloadsEvictLiveCard`, exactly when:
  `CardCache.CardIsLostIff`), and an overlapping fetch can restore a rejected card
  (`CardCache.OverlappingFetchRestoresRejectedCard`, exactly when: `CardCache.RestorableIff`).
- The commit guard compares fetch inputs joined by NUL characters, so inputs that hold one can be taken for others
  (exactly when: `FetchInputs.FingerprintIdentifiesIff`).
- Server ids join name, prefix and hostname by colons, so a hostname with a port can make two servers share one
  (exactly when: `Config.IdIdentifiesIff`).
- Tools and user-specific prefixes are tried before the broker's own tools, so a prefix that begins a meta-tool's
  name takes its calls (`Federation.BrokerToolsAreReachedIff`).
- A registration's entry in a namespace it no longer targets is removed only when the registration is withdrawn or
  deleted (`PrefixOwnership.FormerTargetKeepsEntry`, exactly when: `PrefixOwnership.EntriesAreTargetsIff`).
- `setScope` evicts at the cap even when it overwrites, so another session can lose its scope
  (`ScopeStore.OverwritingAtCap`); the comment on `resetScope` describes what `setScope` lacks.
- `markNotifyTarget` and `shouldDeliver` read the clock before they take the lock. A mark can land out of order and
  shorten a claim (`NotifyWindow.StaleTimestampShortensClaim`), and an ask can be decided after a later clock has
  pruned a claim it should have counted (`NotifyWindow.LateMarkPrunesClaim`). Exactly when the claims, and when the
  answers, go wrong: `NotifyWindow.ClaimsReflectHistoryIff`, `NotifyWindow.WithheldIff`, `NotifyWindow.SpuriousIff`.
- Two client replies to one elicitation that are looked up before either is forwarded are both forwarded
  (`Elicitation.OverlappingRepliesForwardTwice`, exactly when: `Elicitation.AnsweredTwiceIff`).
- An elicitation request in the chunk that ends a response, on a terminated line or not, is rewritten, but its id
  leaves the map before the chunk is sent, so no reply to it can be accepted (`ExtProc.RequestInLastChunk`, exactly
  when: `ExtProc.AnswerableIff`).
- Session ids, agent names and server names share one flat key space; the cache is four maps exactly while they
  keep apart (`SessionCache.IndistinguishableIffApart`).

## Model

| member | source | states |
|---|---|---|
| `CardCache.Safety` | internal/a2a/manager.go:90-225 | in every interleaving of reloads, host/CA changes and overlapping fetches: no key is both rejected and cached, every rejected key is registered, an unregistered key is cached only while the latest index swap still has its eviction pending, and every cached card and every entry held by a fetch carries its own hash |
| `CardCache.Provenance` | internal/a2a/manager.go:90-194 | every cached card, and every earlier entry a fetch in flight holds, was at some moment of the run cached for its registered agent while its bytes passed validation for its own path under the host current at that moment |
| `CardCache.FixedHostCardsConform` | internal/a2a/manager.go:132-170 | if the gateway host never changes, every cached card conforms under it, in every reachable state |
| `CardCache.RejectedIsServedOnlyByConformingCard` | internal/a2a/manager.go:146-217 | when fetches of one key do not overlap, a rejected agent is cached again only after a 200 whose body conforms under the host of that moment |
| `CardCache.NextStepRestoresIff` | internal/a2a/manager.go:131-194 | a rejected agent can be cached again in one step without a conforming new card if and only if a fetch in flight holds an earlier card and its inputs are still current, in the sense of FetchInputs.StillCurrentIff |
| `CardCache.RestorableIff` | internal/a2a/manager.go:90-194 | some run from a state with the agent rejected caches it again with no conforming 200 if and only if some fetch in flight for its key holds an earlier card |
| `CardCache.OverlappingFetchRestoresRejectedCard` | internal/a2a/manager.go:99-194 | an example: of two fetches holding the same earlier card, one rejects the agent and the other, answered 304, puts the old card back |
| `CardCache.QuiescentCardsAreRegistered` | internal/a2a/broker.go:69-106 | with no reload running, every cached key is registered |
| `CardCache.RemovedStaysRemoved` | internal/a2a/manager.go:185-225 | no late fetch brings a removed agent's card back: from any state with the key unregistered and uncached, it stays uncached until a swap registers it again |
| `CardCache.LiveEvictionMeansOvertaken` | internal/a2a/broker.go:92-106 | an eviction deletes a registered agent's card if and only if the key is on the list of the reload that runs it, and then that reload has been overtaken by a newer swap |
| `CardCache.SerialReloadsKeepLiveCards` | internal/a2a/broker.go:69-106 | if no index is swapped while a reload is still running, no step of any run evicts a registered agent's card |
| `CardCache.CardIsLostIff` | internal/a2a/broker.go:69-106 | with no further swap to come, some run evicts a cached card if and only if a running reload has the key on its list, or has yet to list the store and does not know the key |
| `CardCache.OverlappingReloadsEvictLiveCard` | internal/a2a/broker.go:69-106 | it happens: from any state with the card cached, two overlapping reloads end with the agent registered and its card gone |
| `CardCache.CommitMeans` | internal/a2a/manager.go:131-212 | for every response and earlier entry: a commit touches its own key only, does nothing when a fetch input changed (FetchInputs.StillCurrentIff) or nothing usable came, caches a conforming new body, rejects a non-conforming one, refreshes the metadata of an entry whose bytes came again, and re-dates one confirmed by 304 |
| `CardCache.IndexMeans` | internal/a2a/broker.go:69-77 | the index has a key if and only if some agent with that path key has its state unset or Enabled, and then holds the last of them; a disabled agent is never in it |
| `CardCache.IndexFindsEveryAgent` | internal/a2a/broker.go:69-77 | with distinct path keys the index holds every enabled agent under its own key |
| `FetchInputs.CardURLMeans` | internal/a2a/manager.go:238-245 | the effective card URL is the override if there is one, and otherwise the base URL without its trailing slashes followed by the well-known path, and nothing else |
| `FetchInputs.FingerprintIdentifiesIff` | internal/a2a/manager.go:225-236 | agents with the same effective URL, credential and CA have the same fingerprint; no other agent shares an agent's fingerprint if and only if its credential, its CA and its URL past the first character hold no NUL |
| `FetchInputs.StillCurrentIff` | internal/a2a/manager.go:214-223 | a fetch may commit whenever its key is registered with the same effective URL, credential and CA, and CA bundle and host are unchanged; and only then, if the fetched or the registered agent is free of NULs |
| `FetchInputs.CommitsMatchTheConfiguration` | internal/a2a/manager.go:90-223 | in every run, a fetch whose end changes a key's card or rejection was begun for that key, under the CA bundle and host now in force, with the effective URL, credential and CA of the agent now registered (unless both agents hold NULs) |
| `CardBroker.CardBroker.FinishRefresh` | internal/a2a/manager.go:131-172 | the response switch of refreshCard with its commit carries out exactly one commit step of the protocol, for every response and every earlier entry; what the step requires of the fetch is FetchInputs.StillCurrentIff |
| `CardBroker.CardBroker.SwapAgents` | internal/a2a/broker.go:69-91 | the loops of SetAgents carry out exactly the index swap of the protocol, validation state of unregistered keys dropped |
| `CardBroker.CardBroker.EvictStaleCards` | internal/a2a/broker.go:99-106 | run alone, the eviction walk leaves exactly the cards of current agents, untouched |
| `CardBroker.CardBroker.RefreshNewCards` | internal/a2a/manager.go:60-81 | after a reload every registered agent without a cached card is fetched, every one whose effective URL, credential or CA changed is too (NULs aside), and no cached one without such a change |
| `CardBroker.CardBroker.CommitStore` | internal/a2a/manager.go:185-194 | storing and clearing the rejection happen together, and only if the fetch inputs are still current (FetchInputs.StillCurrentIff) |
| `CardBroker.CardBroker.CommitFailure` | internal/a2a/manager.go:201-212 | rejecting and dropping the card happen together, and only if the fetch inputs are still current (FetchInputs.StillCurrentIff) |
| `Validation.ValidateCard` | internal/a2a/validate.go:41-61 | the interface loop returns the first reason in order, and none exactly for the cards whose every interface points at the gateway path and host over a supported binding and version (see CardReason) |
| `Validation.CardReason` | internal/a2a/validate.go:41-98 | no reason is given if and only if the card parses, it has interfaces or else a top-level url, and every interface, or else that url, is on the gateway path, on the gateway host name without a port, http or https, JSON-RPC and version 1 |
| `Serving.ServeAPICatalog` | internal/a2a/serving.go:76-101 | the catalog is strictly sorted and holds the href of exactly the registered, unrejected agents with a cached card |
| `Serving.ServeCardMeans` | internal/a2a/serving.go:25-69 | every answer to every path: the cached bytes and ETag of the named agent, 404 without such an agent or without a well-formed name, 503 when the card is rejected or missing |
| `Serving.ServedBytesWereVetted` | internal/a2a/serving.go:25-52 | in every run the bytes of every 200 were at some moment cached for that agent while conforming under the host of that moment |
| `Serving.CatalogIsExactlyWhatIsServed` | internal/a2a/serving.go:25-101 | in any broker state, a path answers 200 if and only if it is the card path of a well-formed name whose href the catalog lists |
| `Serving.IllFormedIsNeverServed` | internal/a2a/serving.go:55-69 | the card path of a name with an empty part or a slash in a part never answers 200 |
| `Serving.ListedIsServedIff` | internal/a2a/serving.go:25-101 | a listed name's card path answers 200 if and only if the name is well formed |
| `Serving.ListableIff` | internal/a2a/serving.go:76-101 | some run of the broker lists a name, well formed or not, if and only if a card within the size limit conforms for its path under some host |
| `Serving.NoCardForTrailingSlash` | internal/a2a/validate.go:63-86 | for a name whose key ends in a slash, an empty prefix among them, no card conforms, so it is never listed |
| `Serving.ParseCardPathIs` | internal/a2a/serving.go:55-69 | parseCardPath accepts exactly the card paths of well-formed names and recovers the name |
| `Serving.GatewayPathResolves` | internal/mcp-router/a2a.go:67-77 | every path that is an agent's gateway path up to trailing slashes resolves to that agent's namespace and prefix |
| `Serving.ResolveRestIff` | internal/mcp-router/a2a.go:67-77 | what follows /a2a/ resolves to a name if and only if, after leading slashes, it has the non-empty namespace, one slash and the non-empty prefix, and then ends or goes on with a slash or a query |
| `Serving.AdvertisedPathsLeadHome` | internal/mcp-router/a2a.go:67-77 | the catalog's href and the path of every interface of a conforming card resolve, through the router and the agent index, to the very agent they were listed or validated for |
| `Registry.DiffItems` | internal/broker/upstream/manager.go:777-805 | whatever the map iteration order: each newly listed name is published once, from its last listing, and the removed names are exactly the prefixed names no longer listed |
| `Registry.FindConflicts` | internal/broker/upstream/manager.go:632-665 | the nested loop finds a conflict if and only if some name to be added is held by another owner |
| `Registry.RelistKeepsStep` | internal/broker/upstream/manager.go:442-470 | a conflict-free listing leaves gateway names, serverTools, tools and servedToolsMap in agreement, and every entry of every other owner untouched, although deletion is by name only |
| `Registry.RemoveAllKeepsStep` | internal/broker/upstream/manager.go:732-764 | removing everything withdraws exactly this owner's names from the shared registry |
| `Registry.ServedDefinitionIsCurrentIff` | internal/broker/upstream/manager.go:777-805 | after a listing the served definition of a listed name is the listed one if and only if the name is new or its published definition already equals it: the diff goes by name, so changed definitions are not re-published |
| `Registry.UnserialisedPublicationIff` | internal/broker/upstream/manager.go:442-468 | two managers that both check for conflicts before either publishes see none, and the first one's entries survive the second one's publication if and only if they share no name |
| `Manager.PassIsSound` | internal/broker/upstream/manager.go:360-534 | whatever the upstream answers, one manage pass keeps manager and gateway in agreement for tools and prompts and touches no entry of any other owner |
| `Manager.ReadyIff` | internal/broker/upstream/manager.go:360-534 | a pass ends Ready if and only if the server is enabled and reachable and, unless its lists are per user, the tools (except on a prompt notification) and the prompts (if supported, except on a tool notification) were listed, not rejected, and introduce no name another owner holds |
| `Manager.ReadyServesTheListing` | internal/broker/upstream/manager.go:410-474 | after a pass that listed and ended Ready, the gateway names of this server are exactly prefix+name over the tools and the prompts the upstream just listed; a prompt notification leaves the tools, and a tool notification or an upstream without prompts leaves the prompts, as they were |
| `Manager.PassDecides` | internal/broker/upstream/manager.go:410-534 | every pass that gets through to listing, Ready or not, tools and prompts apart: a failed listing and one that introduces a name of another owner change nothing, a rejected one (invalid tools under the rejecting policy) takes away everything of this server, and any other leaves it exactly what was listed |
| `Manager.TouchedIff` | internal/broker/gateway_server.go:57-88 | a pass has the routing table rebuilt if and only if it changes what the gateway serves |
| `Manager.StatusIsTruthful` | internal/broker/upstream/manager.go:360-599 | over any trace of passes from a new manager: the counter equals the failures in a row at the end of the trace, three or more mean empty catalogs, and Ready means that the last pass found the server enabled and reachable and that the totals equal the list lengths |
| `Manager.FailureBurst` | internal/broker/upstream/manager.go:582-599 | a burst of connection failures leaves catalogs and gateway untouched while fewer than three have accumulated and everything withdrawn from the third on |
| `Manager.MCPManager.Manage` | internal/broker/upstream/manager.go:360-534 | the field-by-field code of manage, with its early returns, has exactly the outcome of the pass the lemmas are about, including whether the routing table is rebuilt |
| `Manager.MCPManager.HandleConnectionFailure` | internal/broker/upstream/manager.go:587-599 | one more failure, with the withdrawal at the threshold |
| `Manager.MCPManager.RemoveAllTools` | internal/broker/upstream/manager.go:732-747 | the four tool fields are emptied and exactly the names of serverTools deleted from the gateway |
| `Manager.MCPManager.SyncTools` | internal/broker/upstream/manager.go:410-474 | listing, rejection policy, diff, conflict check, the four fields and the gateway change as one step |
| `Manager.GatewayServer.AddTools` | internal/broker/gateway_server.go:57-72 | each entry put under its name, later ones winning; the table is signalled unless nothing was added |
| `Manager.GatewayServer.DeleteTools` | internal/broker/gateway_server.go:74-88 | exactly the given names removed, no owner consulted; the table is signalled unless nothing was named |
| `Reload.Broker.DeregisterStaleManagers` | internal/broker/broker.go:443-478 | the returned list names, once each, exactly the managers that are unconfigured, whose record differs from a configured one in more than auth, the spelling of the state and the order of the tags, or that are https under a changed CA bundle, and exactly these leave mcpServers |
| `Reload.Broker.StartManagers` | internal/broker/broker.go:482-499 | the first server of every missing id is started with the current CA bundle; running managers are left alone |
| `Reload.BeginKeepsOnTrack` | internal/broker/broker.go:443-478 | after deregistration every manager still registered is configured, equivalent to every configured server of its id, and on the new CA bundle if https |
| `Reload.StopKeepsOnTrack` | internal/broker/broker.go:424-433 | stopping one queued manager keeps running = registered + queued, and per-id alternation of starts and stops |
| `Reload.StartKeepsOnTrack` | internal/broker/broker.go:482-499 | starting re-establishes managed ids = configured ids, with equivalent configurations when ids are unique, and never starts an id that is still running |
| `Federation.RunKeepsInv` | internal/broker/broker.go:405-524 | over any run of passes of any manager, reloads of any configuration and their phases: shared registry safe, reload protocol on track, routing table current whenever no reload is in progress |
| `Federation.GatewayNamesAreTheServers` | internal/broker/upstream/manager.go:442-468 | after any run, the gateway names carrying a server's id are exactly the names in its serverTools, exactly prefix+name over its tools, and exactly the keys of servedToolsMap |
| `Federation.NoInterference` | internal/broker/gateway_server.go:74-88 | no step of any run changes, deletes or adds an entry of anyone but the manager it belongs to |
| `Federation.BrokerToolsSurvive` | internal/broker/discovery.go:101-146 | the discovery meta-tools stay on the gateway, unchanged, through every run |
| `Federation.ReloadsConverge` | internal/broker/broker.go:405-524 | with no reload in progress, against what the latest reload was given: managed ids equal configured ids, with unique ids every manager runs the configured record, credential and CA included, but for auth, the spelling of the state and the order of the tags, and every https manager has the latest CA bundle |
| `Federation.StopsPrecedeStarts` | internal/broker/broker.go:424-437 | over any run starts and stops of an id alternate, so each dropped manager is stopped exactly once and before a replacement with its id starts |
| `Federation.StatusIsTruthfulInRuns` | internal/broker/upstream/manager.go:557-599 | after any run a manager with three or more failures in a row has no tool and no prompt on the gateway, and Ready totals equal the current list lengths |
| `Federation.ServedToolsAreRouted` | internal/routing/router_202511.go:108-163 | with no reload in progress, every server tool on the gateway is routed by the cached table, with its owner's name, host, prefix and url, and by GetServerInfo, to its one owner, and stripping the route's prefix gives the name the owner lists |
| `Federation.FallbacksAgreeIff` | internal/routing/mem_table.go:102-109 | with no reload in progress, LookupPrefix and GetServerInfo agree on every unserved name if and only if no user-specific prefix equals or is a prefix of another server's |
| `Federation.BrokerToolsAreReachedIff` | internal/routing/router_202511.go:108-120 | with no reload in progress after any run, the same condition on gateway and running servers; a tool the broker registered itself can lose its calls to a prefix only |
| `Routing.BuildRoutingTable` | internal/broker/routing_table.go:9-62 | the nested loops build a table with exactly the offered names, each routed to a server that offers it |
| `Routing.GetServerInfo` | internal/broker/broker.go:572-610 | a server serving the name if there is one, else a user-specific server with a longest matching non-empty prefix, else none |
| `Routing.LookupPrefix` | internal/routing/mem_table.go:102-109 | some registered prefix of the name, and none only if there is none |
| `Routing.ResolveTool` | internal/routing/router_202511.go:108-163 | tools first, then prefixes, then broker tools, and an upstream gets the name without its prefix |
| `Routing.BrokerToolIsReachedIff` | internal/routing/router_202511.go:108-120 | a call of a broker tool goes to the broker if and only if no server offers a tool of that name and no user-specific prefix begins it |
| `Routing.LookupsAgreeOnServedNames` | internal/broker/broker.go:572-587 | for a table built from managers in agreement with the gateway, both lookups name the unique owner of a served name and the prefix is undone |
| `Routing.TableMirrorsGateway` | internal/broker/routing_table.go:9-62 | such a table is a function of the gateway registry: the names of registered owners, each with its owner's name, host, prefix, url, list kind and token URL |
| `Routing.FallbacksAgreeIffPrefixesApart` | internal/routing/mem_table.go:102-109 | both directions of the fallback agreement, for every table the code can build, with an unserved name as witness when prefixes overlap |
| `Config.TagsEqual` | internal/config/types.go:182-200 | the counting loops decide multiset equality |
| `Config.UnchangedMeans` | internal/config/types.go:162-200 | a server is unchanged if and only if the two records are equal in every field but auth, the states are equal or both among unset and Enabled, and the tags are the same up to order |
| `Config.AgentUnchangedMeans` | internal/config/a2a_types.go:20-29 | an agent is unchanged if and only if the two records are equal in every field but auth, and the states are equal or both among unset and Enabled |
| `Config.UnchangedIsEquivalence` | internal/config/types.go:162-200 | "not changed" (see UnchangedMeans) is an equivalence relation and implies equal ids |
| `Config.IdIsNotBroker` | internal/config/types.go:149-151 | no server id is the broker's own id |
| `Config.IdIdentifiesIff` | internal/config/types.go:149-151 | a server id stands for one name, prefix and hostname if and only if none of them holds a colon |
| `Framing.ChunkIndependence` | internal/mcp-router/elicitation.go:36-61 | for every split into chunks, even inside a delimiter, an incremental framing processor ends in the state, with the residue and the output, of the whole stream taken at once |
| `Framing.FramesLossless` | internal/broker/http_compat.go:651-672 | frames and residue concatenate to the input |
| `Framing.FramesWellFormed` | internal/broker/http_compat.go:651-672 | every frame ends in its only delimiter and none is left in the residue |
| `Framing.FramesUnique` | internal/broker/http_compat.go:651-672 | no other decomposition of the input has that shape |
| `Rewriter.SseRewriter.Process` | internal/mcp-router/elicitation.go:36-61 | the line-scanning loop over buf rewrites exactly the complete lines, in order, and holds back the rest |
| `Rewriter.SseRewriter.Flush` | internal/mcp-router/elicitation.go:63-78 | the unterminated line goes out rewritten and every id of the stream leaves the map |
| `Rewriter.SseRewriter.MaybeRewrite` | internal/mcp-router/elicitation.go:87-130 | a line changes only if it carries an elicitation request with an id, and then one fresh id is drawn, owned by the stream, and stored with the id the request came with and the server and sessions of the stream |
| `Rewriter.RequestMeans` | internal/mcp-router/elicitation.go:87-101 | a line carries an elicitation request if and only if, trimmed, it is a data line whose payload, less one optional space, parses to a message with that method and an id |
| `Rewriter.RewriteIsChunkIndependent` | internal/mcp-router/elicitation.go:36-85 | for every chunking, Process outputs plus Flush equal the line-by-line rewrite of the whole stream, with the same ids drawn |
| `Rewriter.StoreCalls` | internal/mcp-router/elicitation.go:87-130 | the ids stored for some lines are one fresh id per elicitation request, in order, the i-th with the id the i-th request came with and with the server, backend session and gateway session of the stream, and nothing else in the map changes |
| `Rewriter.ClientSeesAnswerableIds` | internal/mcp-router/elicitation.go:87-130 | the rewritten stream reads as the same elicitation requests in the same order, raw parts in the JSON library's normal form, the i-th under the i-th fresh id, and the map takes that id back to the backend id the i-th request came with |
| `Rewriter.EmittedIsRun` | internal/mcp-router/elicitation.go:36-61 | the lines that statement is about are, concatenated, the bytes the rewriter emits |
| `Rewriter.NoRequestNoChange` | internal/mcp-router/elicitation.go:36-85 | a stream without elicitation requests goes out byte for byte and draws no id, however chunked |
| `Rewriter.FlushTwice` | internal/mcp-router/elicitation.go:60-78 | a second Flush changes and emits nothing, and no id of the stream is in the map after the first |
| `IdMap.InMemoryMap.Store` | internal/idmap/inmemory.go:19-33 | a fresh id now stands for exactly this entry |
| `Elicitation.LifeCycle` | internal/mcp-router/elicitation.go:63-130 | over all interleavings of streams and replies: the map holds exactly the unanswered ids of open streams, each leading back to the id its request line came with and to its stream's server and sessions, ids never repeat, and so does every reply looked up or forwarded |
| `Elicitation.ForwardedRepliesAreRight` | internal/routing/router_202511.go:331-382 | in every run, a reply sent to a backend carries the id its request line came with, to that stream's server and backend session, and came in under that stream's gateway session |
| `Elicitation.AnswerReachesTheBackend` | internal/mcp-router/elicitation.go:87-130 | from any state: when a new stream delivers a request line, a reply in its gateway session to the id drawn for it reaches the backend once, with the id the request came with, and the id is used up |
| `Elicitation.NothingLeftBehind` | internal/mcp-router/ext_proc_adapter.go:168-178 | once all streams have ended the map is empty, whatever replies never came |
| `Elicitation.VerdictMeans` | internal/routing/router_202511.go:331-345 | a reply is accepted if and only if its id is owned by an open stream of the same gateway session and has not been answered |
| `Elicitation.AtMostOnce` | internal/routing/router_202511.go:316-382 | with replies to an id serialised, no id is answered twice |
| `Elicitation.AnsweredTwiceIff` | internal/routing/router_202511.go:331-371 | in any reachable state with nothing answered twice yet, no run without a further lookup answers an id twice if and only if the replies already looked up have different ids, none of them answered |
| `Elicitation.OverlappingRepliesForwardTwice` | internal/routing/router_202511.go:331-371 | an example, for any answerable id: two replies looked up before either is forwarded are both forwarded |
| `Elicitation.RouteElicitationResponse` | internal/routing/router_202511.go:316-382 | unknown id 400, other session 403, undeliverable 500 with the id kept; otherwise the issuing backend id, server and session, and the id is removed |
| `EventFilter.SseFilterWriter.Write` | internal/broker/http_compat.go:651-672 | the writer's loop sends the filtered complete events and keeps the residue |
| `EventFilter.FilterIsChunkIndependent` | internal/broker/http_compat.go:651-687 | for every split into writes, what is sent is the filtered complete events of the whole stream in order, then the unfiltered residue |
| `EventFilter.ReceiverSeesFilteredEvents` | internal/broker/http_compat.go:689-710 | a receiver that frames the filtered stream again finds exactly the filtered events |
| `EventFilter.FilterEventMeans` | internal/broker/http_compat.go:689-710 | an event is dropped if and only if all its lines are comments or blank; one without strippable data goes out byte for byte |
| `EventFilter.StrippedEventCarriesPayload` | internal/broker/http_compat.go:689-710 | a stripped notification reads, at the receiver, as one event with exactly the stripped payload |
| `EventFilter.SSEEventData` | internal/transport/transport.go:77-97 | the data lines of an event in order, and whether it holds nothing else than comments |
| `EventFilter.DataOfMeans` | internal/transport/transport.go:77-97 | each data line gives one payload, everything after the field name less one optional space, in the order of the lines, and other lines give none |
| `EventFilter.SplitMeans` | internal/transport/transport.go:77-97 | the lines hold no newline and joined by newlines are the event |
| `Observer.A2AObserver.Process` | internal/mcp-router/a2a_sse.go:76-91 | the observer's loop notes exactly the complete lines, in order |
| `Observer.ObservesFirstAndLast` | internal/mcp-router/a2a_sse.go:76-134 | for every chunking: the first task id, the first context id, and the state of the last event that named either |
| `Observer.DecodeMeans` | internal/mcp-router/a2a_sse.go:101-121 | an event is noted if and only if its line is a data line whose JSON is a task, status or artifact event that names a task or a context, with those ids and the state, which artifact events lack |
| `ExtProc.Process` | internal/mcp-router/ext_proc_adapter.go:154-561 | the receive loop answers message by message until it closes, as the run that RouterGate, InvocationGate and ResponseGate describe |
| `ExtProc.OneReplyEach` | internal/mcp-router/ext_proc_adapter.go:179-559 | over any message sequence every received message gets exactly one reply, of its own phase or immediate (trailers none), and every message is received until the stream closes |
| `ExtProc.A2ANeverReachesMcp` | internal/mcp-router/ext_proc_adapter.go:223-428 | over any message sequence, well ordered or not: after request headers with a path under /a2a/ no later body of the stream reaches MCPRequest.Validate or the Router |
| `ExtProc.A2AResponseIsVerbatim` | internal/mcp-router/ext_proc_adapter.go:513-559 | with request headers first and only first, every response body of an A2A stream is returned unchanged |
| `ExtProc.RouterGate` | internal/mcp-router/ext_proc_adapter.go:275-428 | for every other stream, from headers and bodies alone: the Router is asked about exactly the in-limit, non-empty JSON bodies that, unmarshalled over the bodies before them, make a valid MCP request; such a body is let through with the routing headers exactly when the Router forwards it and refused with the Router's status exactly when it rejects it; an invalid one gets 400, one over the limit 413 and the end of the stream, and one not looked into passes untouched |
| `ExtProc.ResponseGate` | internal/mcp-router/ext_proc_adapter.go:430-559 | from headers and bodies alone: a response body is streamed through the gateway if and only if its status is 200 and it answers a tool call of a client that takes elicitations, or the last accepted A2A call was a streaming one; otherwise the loop ends at the response headers; bodies end it at the last chunk and come back unchanged unless a rewriter is at work |
| `ExtProc.NothingWithoutHeaders` | internal/mcp-router/ext_proc_adapter.go:188-300 | for any messages without usable request headers: no effect, and a body, response headers or empty request headers get 500 and end the loop |
| `ExtProc.SilentIff` | internal/mcp-router/ext_proc_adapter.go:223-428 | nothing of a stream can reach the MCP side, whatever follows its headers, if and only if the path is under /a2a/, the headers ended the stream, or they carry no JSON content type |
| `ExtProc.InvocationGate` | internal/mcp-router/ext_proc_adapter.go:275-378 | for every stream whose request headers name a path under /a2a/, whatever messages follow: the headers go to the agent at the path, to the broker, or are refused; no turn touches MCPRequest.Validate or the Router, every response body is returned unchanged, a JSON POST body goes on exactly with a supported method and no push configuration and is otherwise refused with the JSON-RPC error of its fault, and one over the limit ends the stream with 413 |
| `ExtProc.AdvertisedPathsReachTheAgent` | internal/mcp-router/ext_proc_adapter.go:223-260 | a POST to an agent's advertised path goes to that agent's host at the fixed backend path, and is refused if no agent is registered there |
| `ExtProc.RewrittenResponse` | internal/mcp-router/ext_proc_adapter.go:513-559 | a streamed tool-call response reaches the client as the line-by-line rewrite of the whole response, however chunked, and leaves none of its ids in the map |
| `ExtProc.ToolCallResponse` | internal/mcp-router/ext_proc_adapter.go:154-561 | whole streams: for any messages that end in the headers of such a response and any chunking of its body, the bytes the loop returns are the line-by-line rewrite of the response for the request as parsed, and no id of the stream is left |
| `ExtProc.StreamingCallResponse` | internal/mcp-router/ext_proc_adapter.go:154-561 | whole streams: for any messages that end in the headers of a streaming A2A response and any chunking of its body, the bytes the loop returns are the response's own and the observer ends with what its lines say |
| `ExtProc.AnswerableIff` | internal/mcp-router/ext_proc_adapter.go:526-553 | an id the stream draws in a chunk, or still has in the map, is in the map when the chunk is sent if and only if the chunk does not end the response |
| `ExtProc.RequestInLastChunk` | internal/mcp-router/ext_proc_adapter.go:526-553 | a terminated elicitation request alone in its chunk reaches the client under a fresh id; a reply to it in its session is accepted with the id the request came with and the server and backend session of the stream, and refused as unknown if the chunk was the last |
| `ExtProc.ObservedResponse` | internal/mcp-router/ext_proc_adapter.go:513-559 | a streamed A2A response reaches the client byte for byte while the observer ends with what its lines say, however chunked |
| `ConfigWriter.NoLostUpdate` | internal/config/config_writer.go:99-258 | in every interleaving of writers that read (possibly a stale version), modify, commit on an unchanged version and otherwise retry: the secret is the sequential replay of the committed operations; a writer that reported success read or wrote a version in which its request holds, an upsert meaning the stored record equals its own but for auth, the spelling of the state and the order of the tags; and unless it committed, its request is one that is skipped when it already holds |
| `ConfigWriter.UndisturbedWriterSucceeds` | internal/config/config_writer.go:99-163 | from any reachable state a writer nobody gets in between with reports success and its request holds in the secret, which is created if it did not exist |
| `ConfigWriter.LastCommitPerNameWins` | internal/config/config_writer.go:166-258 | in every reachable state names are unique and each name's entry is what the last committed operation on that name wrote |
| `ConfigWriter.ModifyMeans` | internal/config/config_writer.go:72-88 | a write is skipped only if the request already holds (an upsert: the stored record equals the given one but for auth, the spelling of the state and the order of the tags), a write makes it hold, only its own section changes (WriteEmpty clears all), names stay unique |
| `ConfigWriter.UpsertNamedEntry` | internal/config/config_writer.go:166-203 | the loop replaces the first entry of the name in place or appends, and skips an unchanged one |
| `ConfigWriter.RemoveNamedEntry` | internal/config/config_writer.go:216-247 | in one secret, the loop drops every entry of the name, keeps the order of the others, and skips when there is none |
| `ConfigWriter.RemoveEverywhere` | internal/config/config_writer.go:208-258 | every aggregated secret is attempted whatever happened to the others; those that did not fail lose exactly the entries of the name, and success means the name is gone everywhere |
| `ConfigWriter.UpsertMeans` | internal/config/config_writer.go:166-203 | an upsert sets its own name, leaves every other name alone and keeps names unique |
| `ConfigWriter.RemoveMeans` | internal/config/config_writer.go:208-258 | a removal clears its own name, leaves every other name alone and keeps names unique |
| `PrefixOwnership.OlderIsTotalOrder` | internal/controller/a2aagentregistration_controller.go:271-276 | registrationOlder is a strict total order on registrations of different names (which one: OlderPrefixOwner, HolderIsOldest) |
| `PrefixOwnership.OlderPrefixOwner` | internal/controller/a2aagentregistration_controller.go:249-266 | an owner is reported if and only if some live registration of the same namespace and prefix and another name was created earlier, or at the same time under a smaller name, and then one of these is named |
| `PrefixOwnership.ConfigSecrets.Reconcile` | internal/controller/a2aagentregistration_controller.go:74-196 | the checks of Reconcile in their order, finalizer handling first, have the effect on object and configurations the lemmas are about |
| `PrefixOwnership.OrderDoesNotMatter` | internal/controller/a2aagentregistration_controller.go:74-196 | for any order and any repetition of reconciles, each registration's slots end as one reconcile of it would leave them |
| `PrefixOwnership.RunKeepsInv` | internal/controller/a2aagentregistration_controller.go:64-196 | in every run from empty configurations, with registrations created, changed and deleted between reconciles that may see stale listings: every entry carries the immutable prefix of its own, still existing registration, and one reconciled since the last change has entries in all its targets if it is granted and no older live one claims its prefix, and none otherwise |
| `PrefixOwnership.HolderIsOldest` | internal/controller/a2aagentregistration_controller.go:249-276 | in every run, a registration reconciled since the last change that has an entry was created before every other live claimant of its prefix, reconciled or not, or at the same time under a smaller name |
| `PrefixOwnership.HoldsPrefixIff` | internal/controller/a2aagentregistration_controller.go:146-276 | in every run, a registration reconciled since the last change has its entry in a target if and only if it is granted and every other live registration of its namespace and prefix was created later, or at the same time under a greater name |
| `PrefixOwnership.TwoReconcilesSettle` | internal/controller/a2aagentregistration_controller.go:74-196 | from any state two reconciles in a row settle a live registration, the first perhaps only adding the finalizer |
| `PrefixOwnership.DeletionCompletes` | internal/controller/a2aagentregistration_controller.go:74-110 | after a deletion the next reconcile leaves neither the registration nor any of its entries |
| `PrefixOwnership.Converges` | internal/a2a/broker.go:69-77 | in every run, any two registrations reconciled since the last change, in whatever order, have different path keys in every configuration, so the broker's index never collides |
| `PrefixOwnership.BrokerFindsEveryAgent` | internal/a2a/broker.go:69-77 | once every registration has been visited, in any run, the index the broker builds from a configuration holds every enabled agent of it under its own path |
| `PrefixOwnership.EntryIff` | internal/controller/a2aagentregistration_controller.go:74-196 | in every run a configuration holds an agent's entry if and only if some reconcile wrote it there and none since has withdrawn or deleted the registration |
| `PrefixOwnership.EntriesAreTargetsIff` | internal/controller/a2aagentregistration_controller.go:146-196 | a visited owner of its prefix has entries in exactly its targets if and only if every entry of it still standing was written to one of them |
| `PrefixOwnership.FormerTargetKeepsEntry` | internal/controller/a2aagentregistration_controller.go:146-196 | when a live owner's targets change, its entry in a former target stays through the next reconcile |
| `SessionCache.CacheIsFourMaps` | internal/session/cache.go:47-324 | over any run whose session ids, agent names and server names do not get in each other's way (Apart), the flat string-keyed map answers exactly as four independent maps and never panics |
| `SessionCache.IndistinguishableIffApart` | internal/session/cache.go:47-324 | some run from the empty cache with these names is answered differently if and only if a session id is another's flag key or begins with an agent's task key, an agent name with a colon begins another's, or a server is named like another's token field |
| `SessionCache.UsualNamesAreApart` | internal/session/cache.go:47-324 | session ids outside the two key prefixes, colon-free agent names and server names outside the token space are apart |
| `SessionCache.TokenClashShows` | internal/session/cache.go:47-324 | each such clash shows: the session of a server named like a token field is handed out as that token |
| `SessionCache.AgentClashShows` | internal/session/cache.go:47-324 | each such clash shows: a record of the agent with the longer name is found as the other agent's |
| `SessionCache.TaskClashShows` | internal/session/cache.go:47-324 | each such clash shows: storing the record makes reading a session id equal to its task key panic |
| `SessionCache.FlagClashShows` | internal/session/cache.go:47-324 | each such clash shows: setting the flag makes reading a session id equal to its flag key panic |
| `SessionCache.FirstWriterOwns` | internal/session/cache.go:258-324 | a task record's first writer owns it through any run with names apart and without its deletion, session deletions included |
| `SessionCache.TaskKeyInjective` | internal/session/cache.go:258-260 | two task records share a key only if they are the same record or one agent's name with a colon begins the other's |
| `SessionCache.Cache.StoreFields` | internal/session/cache.go:78-104 | copy on write: every field map handed out before keeps its contents |
| `SessionCache.Cache.KeyExists` | internal/session/cache.go:30-44 | answers as the specification does whether the session has a field map |
| `SessionCache.Cache.PutField` | internal/session/cache.go:78-104 | adding a field acts as on the specification map and changes no field map handed out before |
| `SessionCache.Cache.DropField` | internal/session/cache.go:106-123 | removing a field acts as on the specification map and changes no field map handed out before |
| `SessionCache.Cache.GetUserToken` | internal/session/cache.go:191-234 | returns the token, or drops an expired one, and changes no field map handed out before |
| `SessionCache.Cache.DeleteSessions` | internal/session/cache.go:59-76 | exactly the sessions and flags of the given ids go, task records stay |
| `SessionCache.Cache.StoreTaskRecord` | internal/session/cache.go:269-295 | insert-only: the stored owner is returned whether or not it is new |
| `NotifyWindow.DeliveryRefinesHistory` | internal/broker/gateway_server.go:153-195 | with a monotone clock a session is notified if and only if a broadcast mark is strictly within the window, or no target mark is live, or one of its own is |
| `NotifyWindow.LastMarkDecides` | internal/broker/gateway_server.go:153-195 | for any order of timestamps, what is stored for a session is its last mark, gone exactly when a later mark of another session, or a later ask with no broadcast pending, came with a clock past its expiry |
| `NotifyWindow.ClaimsReflectHistoryIff` | internal/broker/gateway_server.go:153-195 | at any time and for any order of timestamps, the claims agree with the whole history of marks if and only if no older timestamp overwrote a live mark and no later clock pruned one |
| `NotifyWindow.WithheldIff` | internal/broker/gateway_server.go:153-195 | for any timestamps, a dispatch the history owes a session is withheld if and only if a live mark of its own or a live broadcast was overwritten or pruned, no broadcast is seen, and some other session's mark is remembered |
| `NotifyWindow.SpuriousIff` | internal/broker/gateway_server.go:153-195 | for any timestamps, one that nothing owes is delivered if and only if every live mark was overwritten or pruned, the session had none, and no broadcast was live |
| `NotifyWindow.BroadcastsAreNeverLost` | internal/broker/gateway_server.go:153-157 | because markBroadcast reads the clock under the lock, a broadcast is live in the history if and only if it is seen |
| `NotifyWindow.StaleTimestampShortensClaim` | internal/broker/gateway_server.go:160-174 | the clock is read before the lock is taken: two marks in the wrong order withhold a notification the history owes, for every such pair of timestamps |
| `NotifyWindow.LateMarkPrunesClaim` | internal/broker/gateway_server.go:160-195 | an ask whose clock was read before another session's late mark landed finds its claim pruned and is refused what the history owes, with no mark out of order |
| `NotifyWindow.LateAskPrunesClaim` | internal/broker/gateway_server.go:176-195 | the same after another session's late ask |
| `NotifyWindow.NotifyState.ShouldDeliver` | internal/broker/gateway_server.go:176-195 | the pruning loop with its answer acts as one step on the claims |
| `ScopeStore.GetIsLatestOrUnset` | internal/broker/discovery_scope.go:122-143 | a lookup returns unset or exactly the latest unexpired set or reset of that session, over any run |
| `ScopeStore.SizeIsCapped` | internal/broker/discovery_scope.go:83-119 | over any run the store never outgrows its cap, a cap of zero counting as one because a write always keeps its own entry |
| `ScopeStore.EvictionIsLeastRecentlyWritten` | internal/broker/discovery_scope.go:164-178 | a cap eviction removes an entry whose last write is no later than any other's |
| `ScopeStore.OnlySweptOrEvictedIsForgotten` | internal/broker/discovery_scope.go:71-178 | a session whose latest write or deletion is a write and that is no longer stored was swept after expiry, or evicted by a set, or by a reset of a session not stored, with the store at its cap |
| `ScopeStore.OverwritingAtCap` | internal/broker/discovery_scope.go:83-119 | at the cap, setting the scope of a session that already has one is sure to change no other session's lookup, then or later, if and only if every other entry of earliest expiry has expired; resetting never changes any |
| `ScopeStore.OverwritingInRuns` | internal/broker/discovery_scope.go:83-101 | the same over runs: if and only if the other least recently written sessions are past their time |
| `ScopeStore.Store.EvictOldest` | internal/broker/discovery_scope.go:164-178 | the min-search loop removes an entry of earliest expiry |
| `ScopeStore.Store.SetScope` | internal/broker/discovery_scope.go:83-101 | evicts at the cap, then writes the session's scope with a new expiry |

## Left out

- HTTP clients, TLS pools and the client cache of internal/a2a/tlsclient.go, gRPC message builders, and the Redis backends: foreign calls; their answers are inputs.
- JSON and YAML encoding, SHA-256, URL parsing, JWT and AES: functions in a parameter; that a written configuration reads back as written is taken for granted.
- JSON numbers: an id is decoded into a generic value, so an integer id beyond 2^53 is already inexact in what the JSON library's parse returns; `IdMap.RpcId` is that value, and the model says it is forwarded unchanged.
- Tickers, back-off and jitter: passes and events arrive in arbitrary order instead.
- The tags meta-tools (internal/broker/tags_handler.go): registered without a conflict check; the reload model has none.
- Tool annotations and URL paths in routing entries: hints can change without a table rebuild; agreement is claimed for names and routes.
- Interleaving inside one manage pass across managers, beyond `Registry.UnserialisedPublicationIff`: a pass is one step.
- Federation.ReloadsConverge: configuration equivalence is stated for configurations with unique server ids, because with repeated ids only the first server of an id is started.
- User-specific tool lists fetched per session, virtual servers and the filtering middleware: each is settled by reading one branch.
- Session initialisation, token resolution and header building in routeToUpstream: foreign calls around a cache lookup; the cache itself is modelled.
- ExtProc.Process: request ids, agent names and methods kept for logs and spans only are not modelled.
- ExtProc.A2AResponseIsVerbatim: stated for streams whose request headers come first and only first, which is the order Envoy sends.
- ExtProc.RewrittenResponse: one stream against the id map as it was at the response headers; interleaving of streams over the map is what `Elicitation` is about.
- ExtProc.OneReplyEach: the error of a failed send, which ends the loop, is not an event.
- Elicitation.LifeCycle: one chunk of one stream is one step; the UUIDs two streams draw at once are distinct either way.
- EventFilter.SseFilterWriter.Write: write errors of the underlying connection are not modelled.
- EventFilter.ReceiverSeesFilteredEvents: asks of the JSON library that its compact output holds no newline.
- Rewriter.ClientSeesAnswerableIds: asks of the JSON library that a message it parsed, given a string id, marshals and parses back to the same id, method and version, raw parts up to a normal form.
- ConfigWriter.RemoveEverywhere: other writers between two secrets are not interleaved; within one secret they are what `ConfigWriter.NoLostUpdate` is about.
- ConfigWriter.NoLostUpdate: the number of retries is not bounded; giving up is an event that may happen at any time.
- PrefixOwnership.RunKeepsInv: Kubernetes watches, indexes, status updates and failing reconciles are not modelled; that a registration's prefix never changes and a namespace holds no slash is the API server's rule (api/v1alpha1/a2aagentregistration_types.go:52).
- SessionCache.Cache.GetUserToken: whether a stored token has expired is a parameter.
- OAuth metadata, the token page, the status endpoint and the compatibility branches for older clients: each is settled by reading one branch.
- MCPGatewayExtension oldest-wins checks: ties on creation time are not broken there, so there is no uniqueness theorem.
