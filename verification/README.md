# pdn-bpqchat: a verified model

A Dafny model of the host-free core of pdn-bpqchat, a chat server for packet radio that interoperates
with BPQ chat nodes, and proofs of what that core is for.

## What is modelled

- **The mesh relay.** Nodes flood control records over an arbitrary, possibly cyclic graph of links with
  no hop count and no message id on the wire. `Router.dfy` is the relay at one node, over `RouterSpec.dfy`;
  `Flood.dfy` and `FloodRuns.dfy` are flooding in the abstract; `Mesh.dfy`, `MeshRuns.dfy` and `NoStorm.dfy`
  put whole nodes on the graph and carry the results over; `Steady.dfy`, `Rekeyed.dfy` and `Cycle.dfy` say when a
  data record is delivered once and how it is delivered twice; `Origination.dfy` and `Mirror.dfy` follow a local
  action out to the wire and into another node; `Resync.dfy` is the telling of users on link-up.
- **The hub.** Users, topics with their derived membership index, the node table with its link-drop
  cascade (`HubSpec.dfy`, `HubLaws.dfy`, `Hub.dfy`, over the generic `Index.dfy` and `Sums.dfy`), what whole runs of it amount
  to (`HubHistory.dfy`, `NodeHistory.dfy`), bounded fan-out queues (`FanOut.dfy`), duplicate suppression
  (`SeenSet.dfy`), the in-memory store (`Store.dfy`) and what is remembered in it (`Histories.dfy`).
- **The wire.** The control-record codec (`Proto.dfy`), line reassembly (`Lines.dfy`), the path of a typed
  line to another node (`RfText.dfy`), the connect-script engine (`Expect.dfy`) and the two-ended login
  handshake with admission, over lines and over bytes (`Handshake.dfy`, `HandshakeRuns.dfy`, `Flow.dfy`,
  `HandshakeBytes.dfy`, `Link.dfy`).
- **The allow-list** of inbound peers and its persistence (`AllowSpec.dfy`, `AllowList.dfy`, `Sorting.dfy`).
- **The RHPv2 client**: frames (`Framing.dfy`) and request/reply correlation under every interleaving of
  its goroutines (`RhpSpec.dfy`, `RhpRuns.dfy`, `RhpHistory.dfy`, `RhpClient.dfy`).

Objects that the program updates in place are classes here, and each method is tied to a function on
values; the laws are then proved of those functions and of whole runs.

## Reading the results

- A `char` is one byte. Case folding and white space are those of ASCII.
- A message id is its normalised content rather than a hash of it. `Chat.PreimageIsUnambiguous` says the
  hashed bytes determine that content as long as callsigns and scope hold no NUL, so the model leaves out hash
  collisions and such callsigns and topics.
- The time of each operation is a parameter, read once per call.
- In the mesh a local action announces one record of its node, or none: its announcement may be lost to a full
  queue (`internal/chat/hub.go:96-115`), and an action whose announcement goes out later is a silent action
  followed by one that changes nothing. One inbound record is one step, although the code handles it in several
  lock sections.
- Mesh results are for runs shorter than the seen-set's time to live, so no entry recorded in the run
  expires in it; entries from before the run may expire at any moment. Each graph node is one callsign
  with at most one link per peer.
- A message is stored under the id the relay checked only if its text fits 2048 bytes; the exact
  condition is part of `RelayLaws.DataKeyIsMessageId` and `RelayLaws.SendKeyIsMessageId`.

Where the code does less than its comments say, the model follows the code and the lemma states exactly when
the promise is met:

- `Join` of an identity that is present leaves it in its old topic's member set
  (`internal/chat/hub.go:137-138`): `HubSpec.JoinKeepsIndexIff`.
- A data record is keyed by the sender's topic as recorded at the receiving node
  (`internal/peer/router.go:194-196`), so a topic change can let a second copy through:
  `Rekeyed.TopicMoveReopens`, and `Cycle.ExactlyOnceFailsHere` for the run.
- A banner behind a prompt that no line end follows is not recognised, and then both sides wait for ever
  (`internal/peer/proto.go:55-57`, `internal/peer/link.go:223-227`): `HandshakeBytes.RealNodesLinkIff`.
- The users told on link-up are meant to bring the peer up to date (`internal/peer/link.go:274`), but a link that
  drops and returns within the seen-set's time to live tells them in lines that are dropped as duplicates, after the
  drop took the users away: `Resyncs.RelinkRestoresIff`.
- Decoding collapses blanks (`internal/peer/proto.go:116`), so the id stored at the sender's node is not
  always the key other nodes compute: `RfText.IdSurvivesWire`.
- The allow-list accepts callsigns that its persisted form cannot carry: `AllowSpec.EditKeepsSyncIff`.
- Names that hold an underscore, are blank without being empty, or are a lone question mark do not survive the
  wire: `Proto.DashRoundTrip`.
- A topic whose display name has a blank in it is another topic at the other nodes: `Mirror.TopicTravels`.

## Model

| member | source | states |
|---|---|---|
| MeshRuns.ExactlyOnce | internal/peer/router.go:152-209 | For every finite symmetric graph of nodes and every interleaving of deliveries and local actions within one time to live: a record that is news, once no copy is in flight, has been applied exactly once at every other reachable node, never at its origin, nowhere else, and has cost exactly deg(origin) plus deg-1 for every other reachable node. For a data record this is while its sender keeps its recorded topic at each node that gets it. |
| SteadyMesh.ExactlyOnceByRecords | internal/peer/router.go:152-209 | The same from the records alone: for a data record it is enough that no topic change or leave of its sender, and no unlinking of a node, is in flight when it goes out or originated afterwards. |
| SteadyMesh.IngestKeepsTopic | internal/peer/router.go:168-265 | An inbound record that is no topic change or leave of a user and drops no node leaves that user in its recorded topic, newcomers included. |
| Cycle.AppliedTwiceOnCycle | internal/peer/router.go:168-209 | Where exactly-once fails: on any graph, among three mutually linked nodes, a data record and then a topic change of its sender can be delivered so that one node applies the data record twice, if the change is a change there. |
| Cycle.ExactlyOnceFailsHere | internal/peer/router.go:168-209 | The input: nodes A, B and C linked in a cycle, nothing seen or in flight; a user of A posts H and moves to topic X; B applies the post twice. |
| Rekeyed.TopicMoveReopens | internal/peer/router.go:191-209 | A data record, then a topic change of its sender, then the data record again at one node, all new to it: the first two are accepted, and the third exactly when the change moves the sender there. |
| MeshRuns.ConnectedCost | internal/peer/router.go:152-185 | On a connected graph that cost is the sum of all degrees less one per node other than the origin, whatever the order of delivery. |
| MeshRuns.RunRefines | internal/peer/router.go:168-185 | Every run of concrete nodes (hub tables, seen-set entries with expiry times, message log) is, seen from the keys recorded at each node, a run of the abstract flood. |
| NoStorm.TrafficIsBounded | internal/peer/router.go:168-209 | No storm: the deliveries of any run within one time to live, topic changes that re-key data records in flight included, number at most the copies in flight plus the degrees summed over the unrecorded (node, key) pairs plus what originations inject. |
| NoStorm.InFlightCanArrive | internal/peer/router.go:168-185 | A record in flight can always be delivered next, so together with the bound every run drains. |
| FloodRuns.FloodsExactlyOnce | internal/peer/router.go:152-185 | The abstract flood: origin check, ingress exclusion and a seen-set alone give exactly-once delivery to the reachable nodes and the exact number of copies. |
| FloodRuns.DeliveriesAreBounded | internal/peer/router.go:168-185 | The abstract flood terminates: every delivery lowers the measure (copies in flight plus degrees of unrecorded pairs), every origination raises it by one degree. |
| FloodRuns.QuietMeansDone | internal/peer/router.go:152-185 | Once nothing is in flight, coverage is closed under links: a reachable node without the record would have a copy on its way. |
| MeshNode.SecondCopy | internal/peer/router.go:191-209 | A node that has accepted a data record, whatever it has recorded since, accepts a second copy within the time to live exactly when it has the sender in another topic by then, one in which it has not seen the text. |
| MeshNode.IngestMarks | internal/peer/router.go:168-185 | What one Ingest does to the seen-set: nothing for an own record; otherwise the key is recorded, a refusal means the key was known, and an acceptance also records the id of the message put out. |
| MeshNode.UnlikeKeys | internal/peer/router.go:191-202 | Two different records never share a key, whichever two nodes compute them and whatever their hub tables hold, and neither does the message one of them puts out, unless both are messages of one kind from one sender (to one target, if private) with the same text before or after clipping. |
| Origination.OwnOpsAreLocalChanges | internal/chat/hub.go:120-312 | Every hub operation of a node's own users leaves the users of all other nodes untouched, which is what the mesh assumes of local actions. |
| Origination.PostOriginates | internal/peer/router.go:119-149 | A local post is announced as a data record of this node that any node decodes to the same user and the collapsed text, and the id recorded for it names this node. |
| Routers.Router.Ingest | internal/peer/router.go:168-185 | Accepted exactly when neither own nor seen; then the node state is the specified one, the events are those of applying the record, and every link but the ingress has the raw line once more at its end and the ingress nothing; otherwise no link has anything more. Links that held what the flood has on the wires before hold what the flood pushes afterwards. |
| Routers.Router.Forward | internal/peer/router.go:152-166 | Every registered link except the named one has the line once more at its end; the named one has what it had. |
| Routers.Router.FanOutLocal | internal/peer/router.go:107-147 | A local event goes to every link as its wire record, in step with the flood; events without one reach no link. |
| Routers.Router.FanOutAll | internal/peer/router.go:107-117 | The loop over the subscription: every link gets the wire records of the local events, all of them, in order. |
| Routers.WritingIsPushing | internal/peer/router.go:152-185 | Appending a record's line to every link but one is, on the lines of the links, what the flood calls pushing the record. |
| Routers.AnnouncementsInOrder | internal/peer/router.go:107-117 | The announcements of a run of events are those of its parts one after the other, each event giving its wire record or nothing. |
| Routers.Router.Apply | internal/peer/router.go:214-249 | The hub, seen-set, log, events and subscriber queues after a record are those of the specification, for every record type. |
| Routers.Router.RecordID | internal/peer/router.go:191-209 | The key computed is the specified key of the record at this node. |
| Routers.Router.EnsureUser | internal/peer/router.go:251-265 | An unknown sender joins with the ingress link as provenance; a known one is left alone. |
| RelayLaws.RelayNeverDoubleSends | internal/peer/router.go:107-149 | No hub event that applying another node's J, L, I, T, D or S record causes has a wire record, so the verbatim relay is the only copy sent. |
| RelayLaws.DataKeyIsMessageId | internal/peer/router.go:191-240 | A data record puts a message out exactly when it has text, and the id stored equals the key checked beforehand exactly when the text fits 2048 bytes, sender created on the way or not. |
| RelayLaws.SendKeyIsMessageId | internal/peer/router.go:191-240 | The same for a private record, which also needs a present target. |
| RelayLaws.ApplyIsLocal | internal/peer/router.go:214-265 | Relay traffic never rewrites a present user's origin, and moves a user only to the default topic or to the one a topic record of that user names. |
| RelayLaws.ProvenanceIsStable | internal/peer/router.go:251-265 | Whatever records arrive on whatever links, the ingress link of a user who stays present never changes. |
| RelayLaws.NewcomerIs | internal/peer/router.go:251-265 | The user an unknown sender is made present as: home from the record, provenance from the link, name and QTH only from a J or I record, no flags, in the default topic, announced once. |
| RelayLaws.NodeRecordsApply | internal/peer/router.go:241-245 | An N record enters the node it names and touches no user; a Q record drops it with everybody learned through it; neither puts anything out. |
| Resyncs.StateTell | internal/peer/link.go:491-503 | The loop sends, for each listed user of ours in turn, a join and, unless the topic is the default one, a topic change; nothing for other nodes' users. |
| Resyncs.UpMirrors | internal/peer/link.go:263-274 | After a link-up, a peer that knew nobody of the node and had not seen the lines knows exactly the users it was told of, each with name, QTH, topic and provenance, and everybody else is as before. |
| Resyncs.RelinkRestoresIff | internal/peer/link.go:263-274 | A link comes up, goes down and comes up again and the same users are told: the peer has them back if and only if the time to live has run out since the first telling; before that it has none of them. |
| RouterSpec.IngestKeeps | internal/peer/router.go:168-185 | Any inbound record keeps the hub tables valid, and the membership index exact if it was. |
| HubSpec.EveryRunKeepsTheIndex | internal/chat/hub.go:120-371 | From a new hub, after every run of operations topics and member sets have the same keys and every user is in its own topic's set; if the run joins only absent identities, every member set is exactly its topic's users and the sizes sum to the number of users. |
| HubSpec.JoinKeepsIndexIff | internal/chat/hub.go:120-142 | A join keeps the index exact if and only if the identity was absent or re-joins the topic it was in. |
| HubSpec.UnlinkNodeKeeps | internal/chat/hub.go:342-371 | The link-drop cascade keeps the tables valid and the index exact. |
| Hubs.Hub.DropLearned | internal/chat/hub.go:342-371 | The sweep over the users takes exactly those learned via the node out of the user table and out of their topic sets, and lists each once. |
| HubSpec.IndexCountsUsers | internal/chat/hub.go:437-473 | In an exact index each member set is its topic's present users and the counts sum to the number of users. |
| HubSpec.PerformKeeps | internal/chat/hub.go:120-371 | Every operation keeps the tables valid; every one but a re-join keeps the index exact. |
| HubHistory.SubscribersKnowTheHub | internal/chat/hub.go:96-371 | Over every run from a new hub: the announcements, applied in order to an empty table, give exactly the hub's users, records included, and exactly its linked nodes. |
| HubHistory.SilenceChangesNoUser | internal/chat/hub.go:120-371 | An operation that announces nothing changes no user and no node comes or goes. |
| HubHistory.RecordAgrees | internal/peer/router.go:214-265 | What a peer's record of any type changes in users and linked nodes is what it announces. |
| NodeHistory.NodesAreTheLinked | internal/chat/hub.go:316-371 | Over every run from a new hub a node is in the table exactly when it was linked and not dropped since, under the alias it was first linked with, the last version given since and the time of its last link. |
| NodeHistory.LinkAnnouncesNewNodes | internal/chat/hub.go:316-338 | After any run, a link answers true and announces the node, as it was entered, exactly when the callsign is not blank and the node is not up. |
| NodeHistory.DropTakesItsUsers | internal/chat/hub.go:342-371 | After any run in which the node was linked and not dropped since, a drop takes exactly the users whose link or home it is, announces each, and last announces the node with the entry the table held. |
| Hubs.Hub.Join | internal/chat/hub.go:120-142 | New tables, reply and announcement of a join, blank topic meaning the default one; invalid callsigns are refused and change nothing. |
| Hubs.Hub.Leave | internal/chat/hub.go:146-160 | A present user leaves the tables and is announced once; an absent one is ignored. |
| Hubs.Hub.Post | internal/chat/hub.go:165-197 | A post is refused without text or user; otherwise its id is recorded as seen, it is logged unless its id is known, and it is announced once. |
| Hubs.Hub.Private | internal/chat/hub.go:201-234 | The same for a private message, which needs its target present. |
| Hubs.Hub.SetTopic | internal/chat/hub.go:238-265 | A user moves to a topic, created under its first display name if new; blank names, absent users and no-op moves change nothing. |
| Hubs.Hub.LinkNode | internal/chat/hub.go:316-338 | A node is entered once and announced once; a second link refreshes time and, if given, version. |
| Hubs.Hub.UnlinkNode | internal/chat/hub.go:342-371 | For a known node exactly the users whose link or home it is are removed, no other user changes, and one UserLeft per removed user and then one NodeUnlinked is announced; for an unknown one nothing happens. |
| Hubs.Hub.Topics | internal/chat/hub.go:437-447 | Every topic is listed once with its member count, sorted by name; the counts sum to the number of users while the index is exact. |
| Hubs.Hub.UsersInTopic | internal/chat/hub.go:416-434 | While the index is exact the result is the users whose topic folds to the name, each once, sorted by callsign. |
| Hubs.ListingCountsUsers | internal/chat/hub.go:437-447 | Any complete listing of an exact index counts every user once. |
| FanOuts.EveryRunIsFaithful | internal/chat/hub.go:79-115 | In every run of subscribe, cancel, emit and receive, what a subscriber has received plus its queue is an in-order subsequence of what was emitted since it subscribed; received, queued and dropped add up; one never behind by a full buffer loses nothing; nothing follows a close. |
| FanOuts.FanOut.Emit | internal/chat/hub.go:96-115 | Each registered channel is offered the events in order, an event that meets a full buffer being dropped for that channel only. |
| FanOuts.FanOut.Subscribe | internal/chat/hub.go:79-92 | A fresh channel of its own, empty and open. |
| FanOuts.FanOut.Cancel | internal/chat/hub.go:79-92 | The channel is closed and no longer registered; a second cancel does nothing. |
| FanOuts.EmissionPerChannel | internal/chat/hub.go:96-115 | Event by event or channel by channel, an emission leaves the same queues. |
| SeenSets.SeenIsRecency | internal/chat/seen.go:42-73 | On every call history with a non-decreasing clock, Seen answers exactly whether the id's last earlier call was less than the time to live ago: pruning is unobservable. |
| SeenSets.LenCountsRecentIds | internal/chat/seen.go:59-73 | Len is the number of distinct ids asked about within the time to live. |
| SeenSets.SeenSet.Seen | internal/chat/seen.go:42-57 | The answer, and the entries afterwards: expired ones gone, this one refreshed. |
| Chat.PreimageIsUnambiguous | internal/chat/model.go:108-121 | The NUL-separated bytes a message id hashes determine the normalised content when callsigns and scope hold no NUL. |
| Chat.ClipKeepsText | internal/chat/hub.go:487-493 | Clipped text is trimmed and at most 2048 bytes, and clipping keeps clean text exactly when it fits. |
| Chat.ClipIsTheStart | internal/chat/hub.go:487-493 | Clipped text is what stands at the start of the message up to 2048 bytes: only blanks before and after it are lost within them, and of a shorter message only line ends behind them. |
| Stores.MemStore.SaveMessage | internal/chat/store.go:55-66 | A message is appended unless its id is already logged; ids stay unique. |
| Stores.MemStore.History | internal/chat/store.go:68-86 | The newest messages of the topic at or after the given time, oldest first, up to the limit. |
| Stores.MatchingIsComplete | internal/chat/store.go:68-86 | A history query finds a message exactly when it is logged and matches. |
| Histories.LogIsFirstOfEachId | internal/chat/store.go:55-66 | After any run of saves the log holds exactly the first message saved under each id, once. |
| Histories.SavedIsAnswered | internal/chat/store.go:55-86 | A save adds its message at the end of a query's matches exactly when its id is new, it is a topic message of that topic and not older than asked for; no other answer changes. |
| Histories.NewestOneMore | internal/chat/store.go:82-84 | With a limit the newest are kept: one more match is always in the answer, and the rest are the newest of the old answer. |
| Histories.PostIsRemembered | internal/chat/hub.go:165-197 | A post is found in its sender's topic, however spelled, and in no other. |
| Histories.PrivateIsNeverAnswered | internal/chat/hub.go:201-234 | A private message is logged and changes no topic's history. |
| Histories.DataIsRemembered | internal/peer/router.go:168-240 | An accepted data record is found under its text and the time it came, in the topic this node has the sender in; a refused one is not logged. |
| HubLaws.SetTopicMoves | internal/chat/hub.go:238-265 | A topic change answers true exactly when it is a move between different topics of a present user; then that user alone leaves the one set and enters the other, announced once. |
| HubLaws.JoinPuts | internal/chat/hub.go:120-142 | A join is refused exactly when callsign or node is blank, with no effect; otherwise it changes that one user entry, keeps the given ingress link, and is announced once. |
| HubLaws.JoinBrings | internal/chat/hub.go:120-142 | The user a join makes: everything it brought, canonical callsigns, joined and active now, in the topic asked for under the name that topic already had or else the trimmed one. |
| HubLaws.MoveIsAnnounced | internal/chat/hub.go:238-265 | A move changes nothing else of the user, and announces it as it now is with the topic it came from. |
| HubLaws.JoinThenLeave | internal/chat/hub.go:120-160 | A leave undoes a join of an absent identity: the same users are in the same topics. |
| HubLaws.FirstNameLasts | internal/chat/hub.go:464-473 | Over every run a topic, once there, stays there under the display name it was first given. |
| Mirror.JoinTravels | internal/peer/router.go:119-249 | A local join, announced, decoded and applied at another node, makes the user present there with the ingress link as provenance, under its name and QTH if and only if the wire can carry them. |
| Mirror.InfoTravels | internal/peer/router.go:119-249 | A change of name or QTH arrives at another node if and only if the wire can carry it. |
| Mirror.LeaveTravels | internal/peer/router.go:119-249 | A local leave removes that user at another node, and nobody else. |
| Mirror.TopicTravels | internal/peer/router.go:119-249 | A local topic change takes the user to the same topic at another node if and only if the display name is a single word. |
| Mirror.PostTravels | internal/peer/router.go:119-249 | A local post is put out at another node as the same user's message with its blanks collapsed, in the topic that node has the user in. |
| Mirror.PrivateTravels | internal/peer/router.go:119-249 | A local private message to a one-word callsign is put out at another node exactly if somebody goes by that callsign there, the sender included: private, from the same user, to the same callsign, with the clipped text collapsed. |
| Mirror.PrivateIsAddressed | internal/chat/hub.go:201-234 | A private message is made exactly when there is text, a sender and somebody at the target; it is addressed to the trimmed, upper-cased target, carries the clipped text, and is announced as it is. |
| Proto.DecodeLine | internal/peer/proto.go:98-128 | The scanning loop computes Decode: control lines only, no control byte but tab and FORMAT, at least two fields, callsigns upper-cased. |
| Proto.DecodesIff | internal/peer/proto.go:91-128 | A line is a record exactly when it starts with the format byte and a type, holds no control byte behind them but tab and format, and has two fields there; these are its callsigns, upper-cased, and the rest its arguments. |
| Text.FoldsTheSame | internal/peer/proto.go:55-60 | Two texts fold alike exactly when they differ in the case of ASCII letters only, whichever case is folded to. |
| Proto.EncodeRecord | internal/peer/proto.go:130-144 | The builder loop computes Encode. |
| Proto.OnTheWire | internal/peer/proto.go:130-170 | The records a node originates, byte for byte, blank names and QTHs as question marks. |
| Proto.DecodeEncode | internal/peer/proto.go:98-144 | Decoding undoes encoding: type, upper-cased callsigns, and as arguments the blank-separated fields of what was written. |
| Proto.DataRoundTrip | internal/peer/proto.go:83-146 | A topic message comes back with its blanks collapsed and nothing else changed. |
| Proto.SendRoundTrip | internal/peer/proto.go:83-156 | A private message comes back with its target and its collapsed text. |
| Proto.TopicRoundTrip | internal/peer/proto.go:98-153 | A topic change names the same topic at the other end if and only if the name is blank-free. |
| Proto.DashRoundTrip | internal/peer/proto.go:164-177 | unDash undoes orDash for exactly the empty name and the names that are not blank, not "?" and hold no underscore. |
| Proto.PresenceRoundTrip | internal/peer/proto.go:98-177 | A presence record always has exactly two arguments, and gives each of name and QTH back if and only if the underscore convention can carry it. |
| Proto.DecodedIsCanonical | internal/peer/proto.go:98-128 | A decoded record keeps its raw line, has canonical non-empty callsigns and blank-free arguments. |
| Lines.LineAssembler.Feed | internal/session/assembler.go:40-65 | However the stream is cut up, the non-empty lines completed so far are the non-empty CR/LF segments truncated to the cap, and the buffer never exceeds the cap; what one chunk completes is exact, with an empty line for a bare terminator and one line end for a CR/LF pair. |
| Lines.FeedAll | internal/session/assembler.go:40-65 | Feeding the chunks of a stream yields the capped non-empty lines of the whole stream, independent of the chunk boundaries. |
| Lines.ReadLine | internal/peer/link.go:511-526 | The first segment, capped at 4096 bytes, leaving exactly the rest unread; an unterminated tail is end of stream. |
| Lines.ReadAllLines | internal/node/node.go:403-418 | Reading line after line yields all capped segments: on terminated input the same non-empty lines as an assembler with that cap. |
| Lines.OneMoreByte | internal/session/assembler.go:40-65 | One more byte either ends the partial line or extends it. |
| Lines.TerminatorsEndLines | internal/session/assembler.go:40-65 | Text and what was held before it are one line, ended by a terminator; a CR and an LF together end one line, in either order, and two of a kind two. |
| Lines.CapAllAt | internal/session/assembler.go:40-65 | Capping keeps every line in its place, cut to the cap. |
| RfText.TypedTextSurvives | internal/session/session.go:135-149 | A typed line that is neither blank nor a command is posted, announced, reads back whole from among any other frames of a link, and decodes to a data record of this node and user with the collapsed text, which for lines of at most 2048 bytes is that of the sanitised line. |
| RfText.SanitisedKeepsWords | internal/session/assembler.go:73-86 | A line without stray control bytes keeps its words through sanitising. |
| RfText.Sanitise | internal/session/assembler.go:73-86 | The loop drops control bytes and turns tabs into spaces; the result is plain and no longer. |
| RfText.SanitisedBoth | internal/session/assembler.go:73-86 | Every byte is treated on its own: the sanitised form of two pieces is that of each. |
| RfText.ReadByFirstWord | internal/session/session.go:135-149 | A line is nothing exactly when it has no word, a command exactly when its first word starts with a slash, and is taken with all its words. |
| RfText.ProcessLine | internal/session/session.go:135-149 | A blank line does nothing, and a line that is not a command is posted, trimmed and sanitised; commands are not modelled. |
| RfText.FramedReadsBack | internal/peer/link.go:163-168 | Any list of records without terminators and within 4096 bytes, each sent with a CR, is read back as that list. |
| RfText.IdSurvivesWire | internal/peer/router.go:191-209 | The id recorded at the sender's node equals the key a receiving node computes if and only if the text has single blanks only and the receiver has the sender in the same topic. |
| Expects.Expect | internal/peer/link.go:228-256 | A wait consumes exactly the shortest matching prefix, or everything when there is none, and its window never holds more than 2(len(want)+64)+1 bytes. |
| Expects.FindIsLeast | internal/peer/link.go:228-256 | The search the wait is specified by finds the least non-empty prefix that ends in a match ignoring case. |
| Expects.FindsWhatIsThere | internal/peer/link.go:228-256 | It finds one exactly when the stream contains the wanted text. |
| Expects.HuntStep | internal/peer/link.go:245-251 | The truncated window matches exactly when the whole input read so far would. |
| Expects.RunScript | internal/peer/link.go:205-221 | Each step takes the first match it can and its line is sent at the byte where its own match ended; the stream is left at the end of the last match. |
| Expects.EveryStepSpeaks | internal/peer/link.go:205-219 | As many lines are sent as completed steps have something to say, and the line of each is its own text and a CR, at the end of its own match, in the order of the script. |
| Expects.ScriptCompletesIff | internal/peer/link.go:205-221 | A script completes on a stream if and only if its texts occur there in order, one after another. |
| Expects.FirstMatchesAreBest | internal/peer/link.go:205-221 | Taking first matches never loses: no in-order placement of the texts ends any step earlier. |
| HandshakeRuns.HandshakeCompletes | internal/peer/link.go:315-424 | Over line channels and for every interleaving: the handshake takes at most 9 steps plus the stray lines, or 12 if a gate line goes by unrecognised. If banner and login are recognised it rests only with both sides serving or, for a caller that is not admitted, with it turned away and having given up; if not, it rests with both sides waiting. |
| HandshakeBytes.HandshakeCompletesOverBytes | internal/peer/link.go:315-424 | Over byte channels, read byte by byte, with any bytes in front of banner and login: the pair rests with both serving if and only if the caller is admitted and banner and login are recognised behind what is in front of them. |
| HandshakeBytes.RealNodesLinkIff | internal/peer/link.go:315-424 | Between real nodes over bytes: an admitted IP pair comes to rest serving if and only if the chatter ends in a whole line or a banner and the noise, short of the cap, in blanks; otherwise, for the chatter, with the dialler waiting for a banner and the listener for a login. |
| HandshakeBytes.HandshakeIsBoundedOverBytes | internal/peer/link.go:315-424 | Every byte is read once, and the turns taken to write are bounded by what is in front. |
| HandshakeBytes.BytesRunLines | internal/peer/link.go:511-526 | Every run over byte channels is a run over line channels, with bytes and lines in step throughout. |
| HandshakeRuns.UnrecognisedNeverLinks | internal/peer/link.go:315-424 | If the banner or the login goes by unrecognised neither side ever serves and nothing is asked of the router or hub. |
| HandshakeRuns.AdmittedLosesNothing | internal/peer/link.go:263-353 | An admitted caller is never turned away; everything a side sends after the login or the OK is handled, in hand, or still to be read, in order; the dialler's first keepalive is the first record the listener handles; the router is asked for the link-up and then exactly the records handled. |
| HandshakeBytes.AdmittedLosesNothingOverBytes | internal/peer/link.go:263-353 | The same over bytes: the lines in the bytes a serving side has read are what was in front, what opened the link, and exactly what it has handled or has in hand. |
| HandshakeBytes.OthersTouchNothingOverBytes | internal/peer/link.go:315-353 | Over bytes, without admission or recognition: neither side serves, nothing is written after the banner, nothing is asked of the router or hub. |
| HandshakeRuns.RefusedTouchesNothing | internal/peer/link.go:330-340 | A caller that is not admitted never reaches serving, is sent nothing after the banner, and causes no call on the listener's router or hub. |
| HandshakeRuns.TrafficDiesDown | internal/peer/link.go:451-464 | If neither side says anything of its own accord, the two ends of a served link handle a bounded number of lines. |
| HandshakeRuns.AnswersWeighLess | internal/peer/link.go:451-464 | Keepalives and polls are answered by one poll response, and a poll response by nothing. |
| HandshakeRuns.EveryAskIsAnswered | internal/peer/link.go:451-464 | In every run, what a linked side has sent is its opening, what it said of its own accord, and exactly one response of its own per keepalive or poll it handled. |
| Handshake.StepKeeps | internal/peer/link.go:263-424 | Every step of either side keeps the protocol invariant. |
| Handshake.RecordsReachTheRouter | internal/peer/link.go:439-464 | Of the lines a served link handles, exactly the records that are no keepalive, poll or poll response reach the router, once each, in order, with the link they came on. |
| Links.RealNodesAreWellFormed | internal/peer/proto.go:35-60 | The actual lines of nodes with proper callsigns satisfy what the handshake asks of its lines, whatever bytes are in front, as long as no line of them is a banner or a login. |
| Links.BannerGateIff | internal/peer/link.go:382-395 | On bytes: behind chatter without a banner among its lines the dialler passes the gate on the banner if and only if the chatter ends in a whole line, or in what passes for a banner itself. |
| Links.LoginGateIff | internal/peer/link.go:323-325 | On bytes: behind noise without a login the IP listener passes the gate on the login if and only if the unended end of the noise, short of the cap, is blank. |
| Links.PromptHidesBanner | internal/peer/link.go:223-227 | The input the dialler fails on: a prompt without a line end in front of the banner; no line is a banner. |
| Links.AcceptIp | internal/peer/link.go:315-353 | Over a byte stream: the first record after the login names the caller; it is linked only if its canonical callsign is listed or pinned and turned away only if not; OK and a keepalive are sent exactly to a linked caller, and a refusal is counted. |
| Links.AcceptRadio | internal/node/node.go:290-319 | Over a byte stream: the first line tells a peer from a user, and a peer is admitted by the callsign it connected with before anything else is sent. |
| Links.Dial | internal/peer/link.go:382-395 | Over a byte stream: login and keepalive are sent once a banner is read, and the link is up once an OK line follows. |
| Links.ReadUntil | internal/peer/link.go:357-367 | Reads exactly up to and including the first line that passes. |
| Links.FirstRecordIs | internal/peer/link.go:323-332 | The record that names the caller is the first line that decodes behind the first login; without both there is none. |
| Links.GatesAreDistinct | internal/peer/proto.go:55-60 | No line is two of banner, login and OK, and no record is any of them. |
| RhpRuns.EveryRequestIsAccountedFor | internal/rhp/client.go:103-222 | In every interleaving every issued id has one fate; channels are not shared, carry at most one value, which answers their own request, and are closed at most once; a pending id is in flight, and one in flight but no longer pending has its channel in the read loop's hands or closed. |
| RhpRuns.LoopNeverBlocksOrPanics | internal/rhp/client.go:114-165 | Whatever the read loop is about to do it can do at once, on a channel that is still open. |
| RhpRuns.OutcomesAreFinal | internal/rhp/client.go:187-222 | A finished request keeps its outcome for ever, and ids and channels are never reassigned. |
| RhpRuns.ReplyDecidesRequest | internal/rhp/client.go:153-165 | A reply that finds its request pending is its answer whatever happens next: unless the requester gives up it ends answered with that reply, even if the link is then lost. |
| RhpRuns.AnswersComeFromTheServer | internal/rhp/client.go:153-165 | Every answer was dispatched in the run, under the id of the request that got it. |
| RhpRuns.LinkLossReleasesEveryone | internal/rhp/client.go:114-128 | After the read loop has exited no id is issued, the requesters take at most two steps each, and when none can take another none is left waiting. |
| RhpRuns.LoopLeaves | internal/rhp/client.go:114-128 | After link loss the read loop exits after exactly one step of its own per pending channel and one more, however other steps fall in between, and until then one of its own steps is always enabled. |
| RhpHistory.NoIdAfterClose | internal/rhp/client.go:103-197 | In every run the ids issued are 1, 2 and so on, one for each request begun before the first close or link loss; none is issued after it. |
| RhpHistory.OutcomesHaveCauses | internal/rhp/client.go:187-222 | In every run a request is cancelled exactly if it was cancelled, unwritten exactly if its write failed, waits exactly if it was written and neither cancelled nor woken, and is lost only after the link was; an answer was dispatched under its id. |
| RhpSpec.StepKeeps | internal/rhp/client.go:103-222 | Every atomic step keeps the agreement of requests, pending table, channels and read loop. |
| RhpClients.Client.BeginRequest | internal/rhp/client.go:187-197 | A request takes a fresh id and a channel no other pending request has, unless the client is closed. |
| RhpClients.Client.DispatchFrame | internal/rhp/client.go:153-165 | A reply takes its waiter out of the table exactly once; any other frame changes nothing. |
| RhpClients.Client.AwaitReply | internal/rhp/client.go:207-221 | The requester gets one reply to its own id, or learns that the link is lost. |
| RhpClients.Client.Teardown | internal/rhp/client.go:114-128 | Every channel that was pending ends up closed and empty and no other is touched. |
| Framing.WrittenThenRead | internal/rhp/framing.go:18-51 | Reading the frames written for any list of payloads returns the list, then EOF, or UnexpectedEOF if a torn frame follows. |
| Framing.ReadThenWritten | internal/rhp/framing.go:33-51 | Every byte stream is the frames it yields followed by a tail that is no whole frame, empty exactly at EOF. |
| Framing.Truncated | internal/rhp/framing.go:33-51 | A stream of frames cut anywhere yields the frames complete before the cut, then EOF if and only if the cut is on a frame boundary. |
| Framing.CompleteIsMost | internal/rhp/framing.go:33-51 | Those are as many frames as fit before the cut. |
| Framing.WriteFrame | internal/rhp/framing.go:18-31 | One frame is appended, or nothing when the payload exceeds 65535 bytes. |
| Framing.ReadFrame | internal/rhp/framing.go:37-51 | The first whole frame, EOF before its first byte, UnexpectedEOF within it. |
| AllowSpec.RestartAdmitsTheSame | internal/peer/allow_store.go:38-121 | After any separator-free edits a restart with the same pins and any environment seed holds the same editable set, so it admits exactly the same callers and an emptied list stays empty. |
| AllowSpec.EditKeepsSyncIff | internal/peer/allow_store.go:67-121 | From agreement, an edit leaves list and store in agreement if and only if the callsigns it brings in hold no separator. |
| AllowSpec.LoadSyncsIff | internal/peer/allow_store.go:38-61 | A start leaves list and store in agreement if and only if a set was persisted or the seed is free of separators. |
| AllowSpec.PersistedSetReloads | internal/peer/allow_store.go:93-121 | A persisted set reads back as itself if and only if none of its callsigns holds a separator. |
| AllowSpec.EncodingIsStable | internal/peer/allow_store.go:93-105 | The persisted value depends only on the set of callsigns, not on the order they are listed in. |
| AllowSpec.PinsSurvive | internal/peer/allow.go:56-116 | A pinned peer is admitted after any edits and reloads. |
| AllowLists.AllowList.Allowed | internal/peer/allow.go:77-96 | Default-deny: true if and only if the canonical callsign is not blank and is in the editable set or the pinned one. |
| AllowLists.AdmittedByHistory | internal/peer/allow.go:61-159 | From an empty store, through a start and any separator-free edits and reloads, a caller is admitted if and only if its callsign is not blank and a pin names it, or the last edit about it brought it in, or none is about it and the environment names it. |
| AllowSpec.ListedByHistory | internal/peer/allow_store.go:38-121 | The editable set and the pins after such a history, from what the edits say and nothing else. |
| AllowLists.AllowList.Add | internal/peer/allow.go:118-139 | The canonical callsign enters the set; the result says whether the set changed. |
| AllowLists.AllowList.Remove | internal/peer/allow.go:141-159 | The canonical callsign leaves the editable set; pins are untouched. |
| AllowLists.AllowList.Entries | internal/peer/allow.go:178-194 | The editable set, each callsign once, sorted. |
| AllowLists.LoadAllowList | internal/peer/allow_store.go:38-61 | A persisted set wins over the seed, which is otherwise persisted; without a store the seed is used and nothing is written. |
| AllowLists.PersistAllowList | internal/peer/allow_store.go:67-72 | The store holds the value of the editable set, pins excluded. |
| AllowLists.ReloadAllowList | internal/peer/allow_store.go:78-91 | The persisted set, if there is one, becomes the live one. |
| Sorting.SortBySorts | internal/peer/allow_store.go:96-105 | Sorting keeps the elements and orders them. |

## Left out

- Nodes and links learned from N and Q records: they are applied as the code applies them, but no claim is made that the node graphs of two nodes agree.
- A Q record that names the receiving node drops that node's own users there; the no-double-send result is for the six record types that speak for a user.
- Convergence of presence and topics across the whole mesh: what one accepted record does at one node is stated, and what a link-up does at one peer.
- Seen-set expiry within a mesh run: a copy delayed beyond the time to live may be accepted again.
- Joining and cutting links during a mesh run, and two simultaneous links with the same peer callsign.
- Two different local posts of the same text by the same user in the same topic within the time to live have one id; the exactly-once result is for records that no other record of the run can be taken for.
- Links that end: the handshake model follows a link into service, and not its timeouts, liveness check, telemetry or teardown.
- Timeouts and cancellation of a connect-script wait: the model's wait ends by a match or by the end of the stream.
- Lines a served link sends that hold a terminator or exceed the reader's 4096 bytes: the handshake over bytes is for records that fit a line, as those of sanitised text and ordinary callsigns do.
- Bytes in front of a radio caller's login: its first line decides between a peer and a user, and a user's session is not modelled.
- RfText.ProcessLine: says nothing of commands, which change the hub in their own ways (`/T`, `/N`, `/Q`, `/S` and the rest).
- The user-session branch of an inbound radio connection beyond its first line.
- Non-ASCII case folding and white space, and the replacement of malformed UTF-8 when a line is sanitised.
- Text with control bytes from the web: the wire results are for sanitised text.
- Resyncs.StateTell: takes the users in the order given; the order of the users and nodes listings is not modelled, nor is the private-message history query.
- Store errors, the SQLite store, and the hash itself.
- JSON encoding, sockets, dial and back-off loops, timers, logging, configuration, the web interface and the early-data buffering of RHP streams.
- Handling of pushes by the RHP client's read loop, and the error code inside a reply: any reply counts as an answer.
