# Load-balancer manager: a Dafny model and its proofs

The load-balancer manager keeps HAProxy configurations on behalf of its clients. It owns one block of comment lines and
stanzas inside an HAProxy file that it does not otherwise own, a store (in memory or in Redis), and the HAProxy runtime it
reloads. This project models that logic and proves what the program is for:

- **The managed block.** What the service writes into the file it reads back; the text around the block is kept; writing
  again forgets the last write; the order of the list does not matter; a reader that takes the stanzas apart word by word
  gets back what was configured exactly when the settings are single words without special characters.
- **The configuration service.** Over whole runs with any faults, failed reloads included, store and file agree as far as
  stated, every reply and the final contents are those of a map from trimmed names to normalised configurations, and no run
  touches the text around the block, whether or not there is a client when it begins; HAProxy runs what the file holds, as far
  as stated; failures roll back exactly as far as stated; a restart recovers what was stored. What a client gets for a request is what
  it asked for, field by field, and no key is kept outside its certificate file.
- **Objects.** The service with live TLS objects and shared slices behaves like that state machine, whatever callers do to the
  objects they passed in or were handed.
- **Locking.** The service is linearizable: in every interleaving of calls, readers that seed the store under the read lock
  included, every call takes effect at one moment between its invocation and its return. The readers agree with each other
  and overwrite nothing, whatever writers write before they let go of the lock; the double-checked creation of the runtime
  client publishes one client only.
- **Network sockets.** Addresses printed by the kernel are read, shown and can be read back; the groups of a response
  partition the connections, and the counts add up.

`dafny verify dfyconfig.toml` checks the whole project.

## How the model is laid out

| files | what they hold |
|---|---|
| `text`, `words`, `filepath`, `json`, `jsongrammar`, `numbers`, `sorting`, `keyed` | the parts of Go's library the program relies on, with the laws used here; lists seen as maps |
| `types`, `meaning`, `codec`, `stanza`, `stanzareader` | configurations, validation and certificates, and what they mean character by character; their JSON form; their stanzas and a reader for them |
| `scan`, `entries`, `format`, `block`, `blocklaws`, `mergetexts`, `linebreaks` | the managed block: first for any lawful line format, then for the real one; what merging does to the lines of a file |
| `crud`, `crudlaws`, `crudruns`, `connecting`, `running`, `haproxy`, `requests` | the service as a state machine over values, its invariant, whole runs, runs without a client, what HAProxy runs, the real rules put in, and what requests come to field by field |
| `heap`, `certificates`, `service`, `session` | the service as a class with its store and its objects, and a caller that scribbles on everything it holds |
| `linear`, `linearlaws`, `seeding`, `publication` | whole calls, the seeding readers and the creation of the client, step by step in any interleaving |
| `addresses`, `addresslaws`, `sockets`, `socketlaws` | `/proc/net/tcp` lines, addresses and groups |

Strings are sequences of Unicode characters, blanks are those of `unicode.IsSpace`. The file system, HAProxy, the URL and
X.509 libraries, the settings and the clock of failures enter as parameters (`Outcomes`, `Verdicts`, `Turn`, `File`): every
theorem holds for all of them. A failed write to file or store is taken to leave its target unchanged, and the write that
puts the file back is taken to succeed. A reload that is reported to have succeeded has taken effect; one that is reported to
have failed may have. The path of the HAProxy file in the settings is taken to be the same in every
attempt to create the client, and not empty.

Four facts about the code that a reader of its documentation might not expect, all kept as they are:

- The repository's own README (README.md:63-66) says that an empty store is seeded when the service starts. The code skips
  an empty store at start (internal/services/haproxy.go:501-507) and seeds it when a call first loads the list
  (internal/services/haproxy.go:384-402). `Haproxy.ServiceStartsFromFile` states what starting really does.
- Validation accepts line breaks in names and addresses, and rendering writes them out. `LineBreaks.LineBreaksBreakTheRoundTrip`
  gives, for every accepted configuration, one that is accepted too and does not read back in the form it is stored in;
  `Haproxy.SafeRequestIff` says exactly which accepted requests do. `BlockLaws.MergeLoadIff`, `BlockLaws.MergeAbsorbsIff` and
  `BlockLaws.MergeFramesIff` say exactly when the laws of the block hold.
- A failed request can change the in-memory store. Certificate paths are set through TLS objects that the store shares
  (internal/services/haproxy.go:445-449), and nothing puts them back. `CrudRuns.FailureLeaves` says for every error exactly
  when the store is left alone, and `Haproxy.FailureShowsInStore` gives the inputs for which it is not.
- A file with a BEGIN line and no END line after it makes the next merge append a second block, and the next scan starts at
  the dangling line. The same three lemmas cover it, and `BlockLaws.MergeCloses` shows that it cannot happen twice.

## Model

| member | source | states |
|---|---|---|
| `BlockLaws.MergeKeepsOutside` | internal/services/haproxycfg/global.go:42-62 | every line of the file outside the block is kept, in order; between them stand the markers, the entries in name order and the stanzas; covers the replacing, the appending and the empty-file branch |
| `BlockLaws.MergeFramesIff` | internal/services/haproxycfg/global.go:19-62 | a fresh scan finds exactly the block just written if and only if no BEGIN line was dangling and no rendered line reads like the END line |
| `BlockLaws.OutsideStays` | internal/services/haproxycfg/global.go:48-61 | after one merge, what stands in front of the block and behind it is found unchanged around the new block by the next scan, given that no BEGIN line was dangling and no rendered line reads like the END line; whole runs are in `Haproxy.ServiceKeepsOutside` |
| `BlockLaws.MergeSucceedsIff` | internal/services/haproxycfg/global.go:42-46 | a merge succeeds exactly when every configuration can be rendered, whatever the file holds |
| `BlockLaws.MergeCloses` | internal/services/haproxycfg/global.go:48-61 | no merge leaves a dangling BEGIN line, not even where one was before |
| `BlockLaws.MergeAbsorbsIff` | internal/services/haproxycfg/global.go:42-62 | merging twice equals merging the last list if and only if no BEGIN line was dangling and no rendered line of the first list reads like the END line |
| `BlockLaws.MergeLoadIff` | internal/services/haproxy.go:405-437 | loading a merged file gives the list with names trimmed, in name order, if and only if no other line inside the scanned span is an entry line |
| `BlockLaws.PlainRoundTrip` | internal/services/haproxy.go:411-436 | without a dangling BEGIN line and without line breaks in rendered fields the round trip always holds |
| `BlockLaws.PlainIsHarmless` | internal/services/haproxycfg/global.go:87-97 | no stanza line of a configuration without line breaks in rendered fields can be taken for a marker or an entry |
| `BlockLaws.HarmlessRoundTripIff` | internal/services/haproxycfg/global.go:42-98 | from any file without a dangling BEGIN line: the merged block is found again as written and read back if and only if no line of the text of any stanza reads like the END line or like an entry |
| `BlockLaws.OrderIndependent` | internal/services/haproxycfg/global.go:66-98 | any two orders of a list give the same block text, provided equal trimmed names mean equal configurations |
| `BlockLaws.CanonIsStrict` | internal/services/haproxycfg/global.go:67-76 | with distinct trimmed names the entries come in strictly increasing name order, none lost |
| `BlockLaws.EntryIsLawful` | internal/services/haproxycfg/global.go:78-85 | an entry line is one line, is no marker, and is read back as its configuration |
| `MergeTexts.MarkIff` | internal/services/haproxycfg/global.go:21-35 | a line is a marker if and only if, blanks around it apart, it is the text of the marker |
| `MergeTexts.ReadLineIff` | internal/services/haproxy.go:416-434 | a line is an entry if and only if, blanks around it apart, the prefix stands in front of something that shows, and the entry is the configuration of that JSON text |
| `MergeTexts.MergeFailsIff` | internal/services/haproxycfg/frontend.go:13-17 | a merge fails if and only if TLS is switched on for some configuration and nothing shows in its certificate path |
| `MergeTexts.BlockIsReplaced` | internal/services/haproxycfg/global.go:48-54 | in a file with a block the new one takes the place of the old one, line for line, and every other line stays where it is |
| `MergeTexts.BlockIsAppended` | internal/services/haproxycfg/global.go:56-61 | a file without a block gets it at its end, behind a blank line; line breaks at its end are not kept, and an empty file gets the block only |
| `MergeTexts.BlockHolds` | internal/services/haproxycfg/global.go:78-97 | the markers first and last; one entry line for every configuration, the prefix and its JSON text; behind them the stanzas in the same order |
| `MergeTexts.ClosedIff` | internal/services/haproxycfg/global.go:19-38 | no BEGIN line is dangling if and only if some BEGIN line stands in front of an END line, or there is none |
| `LineBreaks.LineBreaksBreakTheRoundTrip` | internal/services/haproxycfg/types.go:101-107 | validation lets line breaks through: for every accepted configuration there is an accepted one, different in the frontend name only, whose stored form no file gives back |
| `LineBreaks.LineBreaksCanBeHarmless` | internal/services/haproxycfg/frontend.go:21-26 | the condition is wider than freedom from line breaks: a frontend name whose second line shows something other than a comment does no harm |
| `ManagedBlock.ManagedBlockBounds` | internal/services/haproxycfg/global.go:19-38 | the loop finds the first BEGIN line and the first END line after it, or nothing |
| `ManagedBlock.MergeManagedBlock` | internal/services/haproxycfg/global.go:42-62 | the method computes the merge the laws are about, and fails exactly when the rendering does |
| `ManagedBlock.RenderManagedBlock` | internal/services/haproxycfg/global.go:66-98 | trimming, sorting in place and the two line loops compute the block of the canonical list; one configuration that cannot be rendered fails them all |
| `ManagedBlock.LoadConfigurations` | internal/services/haproxy.go:405-437 | the reader's loop collects the entries between the markers, and fails when one cannot be decoded |
| `Scan.ScanLines` | internal/services/haproxycfg/global.go:21-35 | the scan over any marking of lines returns the first BEGIN and the first END behind it |
| `Scan.FramedIff` | internal/services/haproxycfg/global.go:48-61 | for any block text: the span of the spliced block is found again if and only if nothing dangled and the block holds no END line inside |
| `Scan.AbsorbIff` | internal/services/haproxycfg/global.go:48-61 | for any two block texts: splicing twice is splicing the second if and only if nothing dangled and the first holds no END line inside |
| `BlockFormat.RoundTripIff` | internal/services/haproxy.go:411-436 | the exact condition of the round trip for every lawful line format |
| `Entries.CollectLines` | internal/services/haproxy.go:416-434 | the loop returns all entries in order, or fails at the first that cannot be read |
| `Codec.RoundTrip` | internal/services/haproxycfg/types.go:12-42 | decoding the JSON of a configuration gives the configuration back, for all field values |
| `Codec.EncodedShape` | internal/services/haproxycfg/global.go:80-84 | the JSON text is free of line breaks, starts with a brace and ends with one |
| `Codec.EncodedMembers` | internal/services/haproxycfg/types.go:12-42 | every field is found under its own name in the parsed text, targets and TLS settings included |
| `Codec.OneMoreMember` | internal/services/haproxy.go:428-431 | reading an object member by member: a key that names no field is skipped, and a field takes its value from a key that is its name up to case, wherever it stands |
| `Codec.TargetItemAt` | internal/services/haproxycfg/types.go:27-32 | every target is an object with its name, address, port and interval under their names |
| `JsonGrammar.ParsesExactly` | internal/services/haproxy.go:428-431 | the parser accepts a text as a value if and only if it is a JSON text of that value by the grammar of RFC 8259, with any blanks, escapes and forms of numbers |
| `JsonGrammar.PrintedIsBare` | internal/services/haproxycfg/global.go:80-84 | what is printed is a text of the grammar |
| `JsonGrammar.DocumentRoundTrip` | internal/services/haproxycfg/global.go:80-84 | parsing a printed JSON document gives it back, escapes included |
| `JsonText.PrintedForm` | internal/services/haproxycfg/global.go:80-84 | what is printed has the form of JSON: words and numbers, texts between quotes, items between brackets and pairs between braces, with commas between them |
| `Sorting.SortSlice` | internal/services/haproxycfg/global.go:74-76 | the in-place sort produces the sorted sequence |
| `Sorting.SortPermutes` | internal/services/haproxycfg/global.go:74-76 | sorting keeps every element as often as it occurs |
| `Sorting.SortSorts` | internal/services/haproxycfg/global.go:74-76 | the result is in order |
| `Sorting.SortedUnique` | internal/services/haproxycfg/global.go:74-76 | when keys determine elements there is only one sorted order, so an unstable sort is as good as a stable one |
| `StanzaRenderer.RenderFrontendSection` | internal/services/haproxycfg/frontend.go:9-32 | the steps of the code, bind line first, fail exactly for enabled TLS without a certificate path, and otherwise yield the frontend, bind, mode and default_backend lines and the redirect if it is switched on |
| `StanzaRenderer.RenderBackendSection` | internal/services/haproxycfg/backend.go:9-35 | the loop appends one server line per target, in order |
| `StanzaReader.StanzaReadsBack` | internal/services/haproxycfg/frontend.go:9-32 | read word by word, comments, quotes and escapes excluded, the stanzas give back every name, address, port, path, mode, interval, the redirect and the verification flags if and only if the settings are single words without special characters and no interval is negative |
| `StanzaReader.StanzaIsLaidOut` | internal/services/haproxycfg/frontend.go:12-28 | under the same condition the text of every line is that of its words with single blanks between them, and an indentation of four in front of all but the first lines of the two stanzas |
| `StanzaReader.ServerReadsBack` | internal/services/haproxycfg/backend.go:20-32 | a server line gives back name, address, port, check interval and whether certificates are verified if and only if name and address are single words without special characters and the interval is not negative |
| `StanzaReader.BindReadsBack` | internal/services/haproxycfg/frontend.go:12-19 | a bind line gives back address, port and certificate path if and only if address and path are single words without special characters |
| `StanzaRenderer.PlainIffOneLineEach` | internal/services/haproxycfg/frontend.go:21-31 | every rendered line is one line if and only if no rendered field holds a line break |
| `StanzaRenderer.StanzaIsVisible` | internal/services/haproxycfg/backend.go:14-32 | no rendered line looks like a comment |
| `StanzaRenderer.NormalizeKeepsStanza` | internal/services/haproxy.go:157-160 | the normalisation before storing changes no stanza and no renderability |
| `Types.ValidateConfiguration` | internal/services/haproxycfg/types.go:92-191 | the early exits and the map-building loop accept exactly the configurations of the declarative predicate, and tell the two kinds of error apart, for any lower-casing of target names |
| `Types.ValidateTargets` | internal/services/haproxycfg/types.go:164-190 | the loop accepts exactly the lists of valid targets whose lower-cased trimmed names are pairwise distinct, whatever the lower case of a letter is |
| `Types.ValidateTls` | internal/services/haproxycfg/types.go:194-243 | TLS is accepted exactly when it is off and empty, or on with one complete pair of paths or of PEM texts |
| `Requests.AcceptedIff` | internal/services/haproxycfg/types.go:92-243 | validation accepts a configuration if and only if a list of conditions on its characters and numbers holds, and has an error of its own for names in which nothing shows |
| `Types.NormalizeKeepsValid` | internal/services/haproxycfg/types.go:77-89 | a normalised configuration is accepted if and only if the original is, and normalising twice is normalising once |
| `Types.ValidBecomesRenderable` | internal/services/haproxycfg/certificate.go:21-50 | an accepted configuration can be rendered once EnsureCertificatePath has succeeded |
| `Types.EnsurePathSettles` | internal/services/haproxycfg/certificate.go:21-50 | EnsureCertificatePath leaves renderable configurations alone and has nothing left to do the second time |
| `Types.StoredFormIsNotAccepted` | internal/services/haproxycfg/certificate.go:44-46 | the stored form of an accepted PEM pair would not be accepted again; every other accepted configuration would |
| `Types.CertificateFileIsVisible` | internal/services/haproxycfg/certificate.go:35-36 | the certificate path put in place is never blank |
| `Meaning.TrimIff` | internal/services/haproxycfg/types.go:77-79 | trimming cuts off the blanks around a text, all of them and nothing else |
| `Meaning.NormalizeWordIff` | internal/services/haproxycfg/types.go:82-89 | normalising a mode or a strategy gives the one word in lower case that equals the text up to blanks around it and up to case, character by character |
| `Meaning.LessIff` | internal/services/haproxy.go:181-183 | names are ordered by their first difference: the shorter one in front where there is none, the smaller character otherwise |
| `FilePath.KeepLeavesOut` | internal/services/haproxycfg/certificate.go:14-16 | empty and dotted segments, and a segment followed by two dots, make no difference to a cleaned path |
| `Meaning.CertificatesBesideFile` | internal/services/haproxycfg/certificate.go:14-16 | the certificates directory stands beside the configuration file, for every directory path without empty or dotted segments |
| `Meaning.CertificateFileNamed` | internal/services/haproxycfg/certificate.go:35-36 | the certificate file is named like the configuration, in lower case, with underscores for spaces |
| `CrudLaws.EnsureGood` | internal/services/haproxy.go:443-449 | in front of good entries only the new entry gets a certificate, and nothing of it shows in the stored list |
| `CrudLaws.PersistGood` | internal/services/haproxy.go:443-491 | persisting a change to good entries fails by the first stage that fails, in the order of the code, and by nothing else; what file and store hold after each error and after success |
| `CrudLaws.LoadGood` | internal/services/haproxy.go:375-403 | loading seeds an empty store from the file and otherwise changes nothing; it fails exactly by its own faults: a fault of a stage that is not reached does not show |
| `CrudLaws.CreateOk` | internal/services/haproxy.go:129-168 | creating is insert-if-absent on the map; the reply is exactly that of the first fault reached, and the map's where there is none; the maps in store and file after each fault |
| `CrudLaws.UpdateOk` | internal/services/haproxy.go:217-258 | updating is replace-if-present, with the same exact faults and effects |
| `CrudLaws.DeleteOk` | internal/services/haproxy.go:261-296 | deleting is remove-if-present, with the same exact faults and effects |
| `CrudLaws.GetOk` | internal/services/haproxy.go:193-214 | getting is looking up; it fails by the faults of loading and by no other |
| `CrudLaws.ListOk` | internal/services/haproxy.go:171-190 | listing shows the map's values in strictly increasing name order whenever its load succeeds, and an empty list exactly when its load fails |
| `CrudLaws.StartOk` | internal/services/haproxy.go:493-520 | synchronising at start makes store and file agree or fails by the first fault reached, the store untouched |
| `CrudLaws.EveryStepOk` | internal/services/haproxy.go:129-312 | every call with any faults keeps the invariant; its reply and the maps in store and file afterwards are determined by the maps before, the call and its faults |
| `CrudLaws.FaultKeepsMap` | internal/services/haproxy.go:443-484 | as long as the reload succeeds, a call that is hit by a fault changes nothing, and any other one does to the service's map what it does to a map |
| `CrudRuns.RunKeepsAgreement` | internal/services/haproxy.go:375-491 | over every run: store and file hold the same configurations unless the store is empty or a reload has failed since the last successful write |
| `CrudRuns.RunIsClean` | internal/services/haproxy.go:477-484 | store and file cannot have come apart in a run in which no reload has failed |
| `CrudRuns.WritingCleans` | internal/services/haproxy.go:465-475 | nor behind a call that writes |
| `CrudRuns.RunRefinesMap` | internal/services/haproxy.go:129-296 | over every run with any faults, failed reloads included: replies and final maps are those of the run over maps |
| `CrudRuns.RunKeeps` | internal/services/haproxy.go:443-491 | a part of the file that merging leaves alone is the same after every run |
| `CrudRuns.FailureLeaves` | internal/services/haproxy.go:445-484 | from any state, for every error: the file is left as it was; unless the call got as far as saving, the stored list is left as it was if and only if no entry that stays in it was given a certificate file before the failure through an object it shares; a failed reload behind a save keeps the attempted list |
| `CrudRuns.FailureShows` | internal/services/haproxy.go:445-449 | inputs for which a failed Create changes the store |
| `CrudRuns.FileUntouched` | internal/services/haproxy.go:451-484 | from any state: failing calls and reads leave the file as it was |
| `Connecting.RunOnline` | internal/services/haproxy.go:324-373 | from any state: a run that begins without a client is, call by call and reply by reply, the run of the calls not turned away on a service that has its client |
| `Connecting.LinkMeans` | internal/services/haproxy.go:324-373 | over a run, the client is there if and only if it was at first or a call that needs it has connected; the file is unknown as long as no such call has got to the directory |
| `Running.RunsTheFile` | internal/services/haproxy.go:476-484 | from any state and over every run: HAProxy runs what the file holds, unless since the last reload that took effect a reload reported as failed has taken effect and the one behind the rollback has not |
| `Running.RollbacksSuffice` | internal/services/haproxy.go:476-484 | where failed reloads have no effect, or the reloads behind the rollback have one, HAProxy always runs what the file holds |
| `Running.RunsTheAttempt` | internal/services/haproxy.go:476-484 | where neither is so, HAProxy runs the file that was rolled back |
| `CrudRuns.RestartRecovers` | internal/services/haproxy.go:384-402 | losing the in-memory store loses no configuration |
| `CrudRuns.StartupSync` | internal/services/haproxy.go:493-520 | a successful start from a store makes the file hold exactly the stored list and keeps the store |
| `Keyed.SortedListing` | internal/services/haproxy.go:181-187 | sorting a list without duplicate keys lists its map |
| `Keyed.ListingUnique` | internal/services/haproxy.go:181-187 | a map has one listing only |
| `Keyed.AppendMap` | internal/services/haproxy.go:161-161 | appending under a new key is inserting into the map |
| `Keyed.ReplaceMap` | internal/services/haproxy.go:251-251 | overwriting at the index found is updating the map |
| `Keyed.RemoveMap` | internal/services/haproxy.go:290-290 | cutting out the index found is removing from the map |
| `Haproxy.RulesAreLawful` | internal/services/haproxycfg/global.go:42-98 | the real rendering, merging and loading satisfy all the laws the service is proved from |
| `Requests.RequestIsAnswered` | internal/services/haproxy.go:155-167 | from any state: the reply to a Create or Update that succeeds, which is in the store too, has every field of the request; the name without blanks around it, strategy and mode as the words they say, and for a PEM pair the certificate path and empty texts |
| `Requests.RequestIsWritten` | internal/services/haproxy.go:243-257 | the same entry is read back from the file |
| `Requests.NoKeyIsKept` | internal/services/haproxycfg/certificate.go:38-46 | over every run, whatever fails: nothing shows in the fields for certificate and key texts of any stored or written entry, nor of any reply |
| `Requests.ErrorsMean` | internal/services/haproxy.go:129-296 | from any state with a client: a call is invalid if and only if its configuration is not acceptable or nothing shows in its name; where the list loads, creating fails with Exists exactly when a stored name is the same up to blanks around it, and the other calls with NotFound exactly when none is |
| `Requests.NoClientMeans` | internal/services/haproxy.go:129-312 | as long as there is no client and none can be made, deletions and starts are turned away whatever their arguments, new and changed configurations exactly if they are acceptable, lookups never |
| `Requests.ListingIsInOrder` | internal/services/haproxy.go:181-189 | a listing whose load succeeds shows exactly the entries of the service, each in front of those whose name goes on where its own ends or has a greater character at the first difference |
| `Requests.EntriesAreInOrder` | internal/services/haproxycfg/global.go:74-76 | the entries of the block come in that order, none lost, when trimmed names are distinct |
| `Haproxy.SafeRequestIff` | internal/services/haproxycfg/types.go:92-191 | an accepted request is found again and read back, in any file without a dangling BEGIN line, if and only if no line of its stanzas reads like the END line or like an entry; this is what the theorems about runs ask of requests, and what the service would have to check |
| `Haproxy.PlainRequestIsSafe` | internal/services/haproxycfg/types.go:92-191 | an accepted request is stored without line breaks in rendered fields if and only if its own texts, once trimmed as they are rendered, and the certificate path it is given hold none; then it is safe |
| `Haproxy.FileNameIsFree` | internal/services/haproxycfg/certificate.go:35-36 | the path of a written certificate file has no line break when directory and name have none, whatever else the name holds |
| `Haproxy.ServiceKeepsAgreement` | internal/services/haproxy.go:375-491 | agreement of store and file over every run of the real service, whatever fails |
| `Haproxy.ServiceRefinesMap` | internal/services/haproxy.go:129-296 | every run of the real service, whatever fails, is a run of a map from trimmed names to normalised configurations beside the map in the file: all replies and the final maps are determined |
| `Haproxy.ServiceStep` | internal/services/haproxy.go:129-312 | one call of the real service with any faults, failed reloads included: exact reply, exact effect |
| `Haproxy.ServiceKeepsOutside` | internal/services/haproxy.go:443-491 | the text in front of the managed block and behind it is the same after every run of the real service |
| `Haproxy.ServiceFailureLeaves` | internal/services/haproxy.go:445-484 | the exact rollback for the real rules, from any state |
| `Haproxy.FailureShowsInStore` | internal/services/haproxy.go:445-449 | any entry with a PEM pair alone in the file, an unseeded in-memory store, a request under another name, a read that fails: the request fails before anything is written, and yet the store has changed |
| `Haproxy.ServiceIsLinearizable` | internal/services/haproxy.go:129-312 | in every interleaving of calls of the real service, whatever fails: between any two steps store and file agree, the map is that after the calls one by one in some order, and every call that has returned gave the map's reply at a moment of its own |
| `Haproxy.ServiceComesUp` | internal/services/haproxy.go:324-373 | every run from a well-formed file and store, whatever there is of a client at first: a call that needs the client is turned away as long as there is none, and the others are a run of the map, in which lookups cannot read the file until it is known |
| `Haproxy.EmptyFileIsWellFormed` | internal/services/haproxy.go:405-437 | an empty file and an empty store are something to start from |
| `Haproxy.ServiceRecovers` | internal/services/haproxy.go:384-402 | restart recovery for the real file format |
| `Haproxy.ServiceStartsFromStore` | internal/services/haproxy.go:493-520 | start from a durable store: file and store agree, the store is untouched, and so is the text outside the block |
| `Haproxy.ServiceStartsFromFile` | internal/services/haproxy.go:501-507 | start with an empty store changes nothing; the invariant holds for every well-formed file |
| `Heap.Clone` | internal/services/haproxycfg/types.go:246-257 | the copy has the same value and shares no backend array and no TLS object with the original |
| `Heap.CloneEntries` | internal/services/haproxy.go:185-187 | overwriting every entry with its clone keeps the values and leaves nothing shared |
| `Heap.SortValues` | internal/services/haproxy.go:181-183 | sorting the structs by name sorts the configurations they hold |
| `Certificates.EnsureCertificatePath` | internal/services/haproxycfg/certificate.go:21-50 | the path is set through the pointer in exactly the cases of the specification; then both PEM texts are empty and everything else is unchanged; a failed file write changes nothing |
| `Certificates.EnsureCertificatePaths` | internal/services/haproxy.go:445-449 | the loop over shared objects does to the values what the specification does, stopping at the first failure |
| `Service.InMemoryStore.List` | internal/services/configstore/memory.go:26-33 | the list is a shallow copy: the entries are the stored ones |
| `Service.InMemoryStore.Save` | internal/services/configstore/memory.go:36-44 | the stored list is replaced by a shallow copy, or left alone by a call that fails |
| `Service.ReflectedValues` | internal/services/configstore/memory.go:30-32 | what the stored list shows after certificate paths were set through TLS objects it shares with the changed list |
| `Service.HaproxyService.GetOrCreateClient` | internal/services/haproxy.go:324-373 | client, file and certificates directory are set as far as the attempt gets, the paths even where the directory cannot be created; a client that exists is used |
| `Service.HaproxyService.LoadConfigurations` | internal/services/haproxy.go:375-403 | the loaded list is the stored one, seeded when it was empty; the state is the specified one |
| `Service.HaproxyService.LoadConfigurationsFromFile` | internal/services/haproxy.go:405-437 | fresh objects with the values the file holds, or the error |
| `Service.HaproxyService.PersistAndReload` | internal/services/haproxy.go:443-491 | stages and rollback as specified, for live objects shared between the changed and the stored list |
| `Service.HaproxyService.SaveAndReload` | internal/services/haproxy.go:470-484 | behind the write: a failed save or reload writes the bytes read before back into the file and leaves the store as it is then; behind a failed reload there is another one |
| `Service.HaproxyService.CreateConfiguration` | internal/services/haproxy.go:129-168 | one step of the state machine; the result is fresh and shares nothing with the store, which takes in fresh objects only |
| `Service.HaproxyService.UpdateConfiguration` | internal/services/haproxy.go:217-258 | the same for updates |
| `Service.HaproxyService.DeleteConfiguration` | internal/services/haproxy.go:261-296 | the same for deletions |
| `Service.HaproxyService.GetConfiguration` | internal/services/haproxy.go:193-214 | the same for lookups |
| `Service.HaproxyService.ListConfigurations` | internal/services/haproxy.go:171-190 | the same for listings: sorted in name order, every entry a fresh copy |
| `Service.HaproxyService.Start` | internal/services/haproxy.go:298-312 | the same for the start |
| `Session.Run` | internal/services/haproxy.go:129-296 | in any session of calls and scribbling on everything passed in or handed out, replies and final state are those of the state machine over values |
| `LinearLaws.Linearizable` | internal/services/haproxy.go:129-312 | in every interleaving the state is that after the calls one by one, in an order without repetition, and every call that has returned gave the reply it gets at its place in that order, a place between its invocation and its return |
| `LinearLaws.OrderInTime` | internal/services/haproxy.go:129-312 | a call that returns before another one is invoked takes effect before it |
| `LinearLaws.CallReturns` | internal/services/haproxy.go:129-312 | a call returns after at most six turns of its thread, with the effect and reply it has in one piece, unless another thread is in its way: any inside for a call that writes, a writer for a lookup, none for a call that is refused for its arguments |
| `LinearLaws.StepKeeps` | internal/services/haproxy.go:375-403 | one step of one thread, a seeding save under the read lock for instance, keeps the promise every other thread was given |
| `LinearLaws.ListFits` | internal/services/haproxy.go:375-382 | where a reader takes effect: at its listing, unless it is going to seed |
| `LinearLaws.SaveFits` | internal/services/haproxy.go:392-402 | a reader that seeds takes effect where it saves, although others may have seeded meanwhile |
| `Seeding.ReadersAgree` | internal/services/haproxy.go:172-214 | in every interleaving, all lists saved or returned between two writers are the one the last writer left, in the store or, if that is empty, in the file |
| `Seeding.SeedsOverwriteNothing` | internal/services/haproxy.go:384-402 | a seeding save finds the store empty or already holding the same list |
| `Seeding.UpdatesSurvive` | internal/services/haproxy.go:375-403 | while nobody writes, file and store are what the last writer left, give or take the seeding of an empty store |
| `Seeding.ReaderReturns` | internal/services/haproxy.go:172-214 | a reader that nothing fails and that meets no writer returns what there is to see, whatever other readers are about, and leaves it in the store |
| `Seeding.LoadSeesTheSame` | internal/services/haproxy.go:375-403 | a load in one piece, as the state machine has it, sees what interleaved readers see |
| `Publication.OneClientForAll` | internal/services/haproxy.go:324-373 | in every interleaving at most one client is published and all successful callers get it, with the same file and the directory that belongs to it |
| `Publication.FilesBeforeClient` | internal/services/haproxy.go:363-371 | whenever a client is visible, file and directory are set |
| `Publication.PublishedForGood` | internal/services/haproxy.go:336-338 | after publication no step of any thread touches client, file or directory |
| `Publication.PublishedIsGot` | internal/services/haproxy.go:324-331 | a caller that finds a client published gets it without waiting for other callers that read |
| `Publication.RetrySucceeds` | internal/services/haproxy.go:366-371 | attempts that failed, at creating the directory for instance, do not stand in the way of a later one |
| `Numbers.ParseUintExact` | internal/services/network_sockets.go:246-254 | numbers are accepted exactly when they are digits of the base and fit into 32 bits, and mean what they say |
| `Numbers.ParseIntExact` | internal/services/network_sockets.go:271-271 | numbers with a sign are accepted exactly when they are digits of the base behind it and fit into 32 bits with the sign |
| `Addresses.ParseIPv6` | internal/services/network_sockets.go:336-359 | shifting, printing, joining and compressing give the eight hextets of the address, in network order and minimal form; other lengths are returned as they are |
| `Addresses.CompressIPv6` | internal/services/network_sockets.go:362-372 | the loop shortens every part and nothing else |
| `Addresses.ShortenedPair` | internal/services/network_sockets.go:366-369 | cutting zeros off two printed bytes gives the minimal form of the 16-bit number |
| `AddressLaws.IPv4RoundTrip` | internal/services/network_sockets.go:300-333 | every address and port the kernel prints is read as that address, in dotted decimal, and that port |
| `AddressLaws.DottedReadsBack` | internal/services/network_sockets.go:324-324 | the dotted text gives the four bytes back |
| `AddressLaws.IPv4ShownDifferently` | internal/services/network_sockets.go:324-324 | different IPv4 addresses are shown differently |
| `AddressLaws.IPv6RoundTrip` | internal/services/network_sockets.go:325-332 | every 16-byte address and port the kernel prints is read as the hextets of that address and that port |
| `AddressLaws.HextetsReadBack` | internal/services/network_sockets.go:356-372 | reading the shown hextets gives two numbers for every four bytes, each of two bytes in network order |
| `AddressLaws.ShownDifferently` | internal/services/network_sockets.go:336-372 | different IPv6 addresses are shown differently |
| `AddressLaws.ShownForm` | internal/services/network_sockets.go:362-372 | eight parts of one to four lower-case digits without superfluous zeros (form 1 of section 2.2 of RFC 4291, sections 4.1 and 4.3 of RFC 5952) |
| `SocketLaws.KernelLineIsRead` | internal/services/network_sockets.go:232-292 | a line the kernel prints yields its socket: both addresses and ports, state, user and inode |
| `SocketLaws.StateOfIsNumbered` | internal/services/network_sockets.go:31-43 | the states are those of the kernel, by number |
| `SocketLaws.FileIsRead` | internal/services/network_sockets.go:217-295 | of the sockets printed behind the first line of a complete file exactly those whose inode is known are read, all of them when none is, in their order and with all their fields; of other files none |
| `SocketLaws.OthersAreLeftOut` | internal/services/network_sockets.go:256-259 | whatever the lines: with known inodes, no socket of another inode is shown |
| `SocketLaws.RequestIsAnswered` | internal/services/network_sockets.go:47-117 | the response holds exactly the chosen sockets of both files, each in the group of its state, those of the first file in front, and their number; a file that cannot be read leaves those of the other |
| `SocketLaws.LineIsReadIff` | internal/services/network_sockets.go:232-292 | a line is skipped if and only if it has less than ten fields or one that matters cannot be read; otherwise the connection has the numbers and addresses of its fields |
| `SocketLaws.AddressIsReadIff` | internal/services/network_sockets.go:300-333 | an address is read if and only if it is two texts around one colon, the second a number, the first of eight characters for IPv4 |
| `SocketLaws.AddressIsShown` | internal/services/network_sockets.go:317-359 | what is shown of any address that is read: the four pairs of digits of an IPv4 address as numbers, the last pair first; of 32 digits the hextets of the four numbers, the lowest byte first; other IPv6 texts as they are |
| `Numbers.FewDigits` | internal/services/network_sockets.go:343-346 | up to eight hexadecimal digits are always read as their number, and any other text of that length counts as zero |
| `Sockets.ReadSockets` | internal/services/network_sockets.go:217-295 | the loop with its continues selects exactly the readable, wanted lines behind the header, in order |
| `Sockets.RestrictionCommutes` | internal/services/network_sockets.go:256-259 | restricting to the service's inodes while reading is restricting what was read without restriction |
| `Sockets.GroupByState` | internal/services/network_sockets.go:86-96 | the loop builds one group per state that occurs, with exactly its connections in order, and counts three of them |
| `Sockets.ListGroups` | internal/services/network_sockets.go:98-106 | the groups are listed once each, in any order |
| `Sockets.GetNetworkSockets` | internal/services/network_sockets.go:47-117 | the response describes the connections of both files; unreadable files contribute nothing and unknown inodes filter nothing |
| `Sockets.GroupsPartition` | internal/services/network_sockets.go:86-106 | every connection is in exactly one group, that of its state |
| `Sockets.CountsAddUp` | internal/services/network_sockets.go:98-114 | below two to the power of 31 connections the counts sum up to the total, and the three counters are the counts of their groups |
| `Sockets.WrapsAround` | internal/services/network_sockets.go:102-114 | counts beyond the range of their type wrap around |
| `Sockets.GroupsKeepOrder` | internal/services/network_sockets.go:87-87 | a group keeps the order of the connections |

## Left out

- gRPC controllers, generated messages, health, metrics, keep-alive, wiring and settings layers: one-branch mappings and plumbing.
- GetStatus and the mapping of runtime statistics: a filter over foreign data.
- Shutdown: a call that got the client before `onStop` may find it gone (internal/services/haproxy.go:314-322); runs do not include it.
- Redis as a client and several processes: Redis is a durable cell whose calls may fail; no lock spans processes, so nothing is claimed for more than one.
- Uniqueness of frontend and backend section names across configurations: the code does not check it, so it is not claimed.
- Contents of certificate files: two names can map to one file name; only paths are modelled.
- The checks of settings inside getOrCreateClient, apart from the configuration path: they appear as one way of failing.
- URL, certificate and key parsing: `Verdicts` carries what those libraries say about the texts of a request.
- Finding processes and inodes under `/proc`: the set of inodes, or its absence, is an input.
- Nil and empty backend lists: both are empty here; Go prints the former as `null`, which reads back as the same empty list.
- Types.NormalizeWord: lower case is that of ASCII and of the two other letters whose lower case is ASCII, which is all that the words of modes and strategies need; certificate file names with other capital letters keep them here. Target names are compared by whatever lower-casing `Verdicts` carries.
- Codec.RoundTrip: texts are valid UTF-8; Go replaces invalid bytes when printing.
- Codec.Decode: a repeated `backends` key replaces the list here, while Go reuses the elements of the first; nesting depth is not limited.
- Sorting.SortSlice: sort.Slice does not promise the order of equal names; insertion is one order it may choose, and the laws about lists with distinct names hold for every order.
- Service.HaproxyService.PersistAndReload: the class is proved with the store that shares its objects; a store of copies is covered by the state machine over values.
- LinearLaws.Linearizable: the client is there from the start; its creation in any interleaving is the subject of `Publication`, and runs without it that of `Connecting`. While a call creates the client, a lookup can already see the file, before that call has taken the lock it writes under, so the first call is not one step. A writer, alone behind its lock, works in one piece: what store and file look like in the middle of a write is left out here and open in `Seeding`. Calls of the store under one lock are taken in one piece each, and the waiting that a lock adds to be fair is left out, which only leaves more interleavings.
- StanzaReader.StanzaReadsBack: the reader is this project's own; lines with a comment character, a quote or a backslash are not read, so what HAProxy makes of them is not claimed. Validation does not ensure single words.
- SocketLaws.KernelLineIsRead: lengths are counted in characters; Go counts bytes, which differs only for lines that are not ASCII.
- Numbers.ParseUintExact: bases 10 and 16 with 32 bits are what the code uses; others are not modelled.
