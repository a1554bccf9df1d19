# Verified models of stormio and the goose client

This project models four parts of the repository and proves what they promise, or exactly when
they keep it.

**Configuration files** (`stormio/conf`). The reader is a line machine over a section, a pending
option and a nested map; the printer visits the map in an arbitrary order. The reader is proved to
be a fold over trimmed lines, and the central theorem says, for every configuration, header line and
order of the maps, that printing and reading back gives the same configuration exactly when it is
well-formed (`ConfigCount.RoundTrip`). The hard half, that nothing else comes back, is a counting
argument: reading adds at most one piece of a value per line that is neither blank, comment nor header.

**Regions and authentication** (`goose/client`, `goose/identity`). From the raw service catalogue to
the URL table of a client, the list of regions it suggests when required services are missing, and
a machine of interleaved authentications, timeouts, token clears and unlocked look-ups.

**The Nova service double** (`goose/testservices/novaservice`). A relational store with rules kept
twice and lists that removals leave behind. Which tables agree in every run of its operations, and
what holds in addition when all changes come as requests.

**Provisioning** (`stormio/provision`, `stormio/scheduler`). Floating-IP allocation with reclaiming and
roll-back, and five-attempt server creation, against a cloud any of whose calls may fail.

## How the model is laid out

- `Text`: trimming, lower case, lines and separators of ASCII text. `Wrappers`: `Option`. `Sequences`:
  sequences without repetition.
- `ConfigData`, `ConfigRead`, `ConfigShape`, `ConfigWrite`: the map, the fold, the shape of
  configurations, the printer, all on values. `ConfigLines`, `ConfigRoundTrip`, `ConfigCount`,
  `ConfigReread`, `ConfigRuns`: the theorems. `ConfigFiles`: the `ConfigFile` object, whose methods are proved against
  those functions.
- `Strings` (byte order and sorting), `Regions` (matching and suggestions), `Catalogue` (the
  authentication reply), `AuthClient` (the client object), `ClientDefaults` (how clients are made),
  `AuthProtocol` (interleavings).
- `NovaStore`, `NovaTables`, `NovaInvariants`: tables and operations. `NovaHttp`, `NovaRefs`, `NovaRuns`, `NovaReplies`:
  requests and runs of them. `NovaMeaning`: what each request means, without the functions that
  serve it. `NovaReturns`: the one id given out twice. `NovaEffects`: what accepted requests bring about. `NovaServer`: the service object. `Decimal`: decimal numerals of ids.
- `Cloud`: the compute service as clients see it, with calls that fail at will. `FloatingIPs`,
  `Provisioning`, `Scheduler`: its clients. `FloatingRaces`, `FloatingCalls`: attachments for several servers
  interleaved.

A Go map's iteration order is a choice left open: a loop picks any remaining key, and an `Order`
records what was picked. A remote call is a method whose outcome is left open within its contract.

## Where the code and its documentation differ

The model follows the code.

- A line is a comment when its first three characters read `rem` in any case, not only when `rem` is a
  word of its own (`src/stormstack.org/stormio/conf/read.go:75`). An option named `remote` therefore cannot
  be read back, and `GoodOptionName` excludes it.
- A separator in the first column does not make an option line but a continuation
  (`src/stormstack.org/stormio/conf/read.go:89`); `GoodNextPiece` allows it.
- What `Read` produces is not always fit to be written and read again
  (`ConfigReread.BracketLineLost`); `ConfigReread.RereadExactly` says when it is.
- `possibleRegions` is documented to return regions any of which gives access to the required services
  (`src/launchpad.net/goose/client/client.go:244-246`). A suggestion reaches all missing types for every
  table exactly when at most two different types are missing (`Regions.SuggestionsHelpAllExactly`), and it
  keeps what the configured region reaches exactly when one of the two regions ends with the other
  (`Regions.SuggestionKeepsAccessExactly`).
- A partial override of the URL table is never completed from the catalogue, so a client can hold a token
  without an endpoint for a required type (`AuthProtocol.TokenSafetyExactly`, `AuthProtocol.QueriesServedExactly`).
- `NewClient` never uses the list of required types it is given: its nil test assigns the wrong way
  round. A call without a list, as in `NewServiceProvision`, empties the package's default list, so that
  later clients require nothing (`ClientDefaults.NothingRequiredExactly`).
- An expired token is not renewed: `sendAuthRequest` calls an authentication that finds the token and
  returns, and the request is sent with it (`AuthClient.Attempt`).
- `addServerFloatingIP` and `removeServerFloatingIP` change the IP before they can refuse
  (`NovaInvariants.RefusedAttachChanges`, `NovaInvariants.RefusedDetachChanges`).
- Deleting a security group leaves its rules in the index, where they stay visible through a group
  that is created later under the same id (`NovaInvariants.StaleExactly`).
- The default group's id, 999, is ahead of the counter. Once that group is deleted, the counter comes to
  it: the 999th new group has the members and the indexed rules that the default group left behind
  (`NovaReturns.MembershipReturnsExactly`, `NovaReturns.RuleReturnsExactly`).
- `waitServerToStart` always returns a nil error, because an inner variable hides the result; and the
  error for a failed renaming is overwritten by the next call. `ErrorSettingHostName` therefore never
  reaches the scheduler (`Provisioning.ServiceProvision.ProvisionInstance`).
- A server is renamed only if the look-up of its names returned some and an error as well
  (`Provisioning.NameCalls`).
- `Dettach` deletes an address only when more than one IP is listed (`FloatingIPs.FIPWithNova.Dettach`), and
  `DeprovisionInstance` calls it for remediations only, while its comment says the opposite.
- `createServer` runs in a goroutine per request, and an attachment may reclaim an IP from a listing
  made before another attachment used it. Servers keep their IPs exactly when no two attachments are
  under way together (`FloatingRaces.ServedExactly`).
- When the old address was listed, `Retain` reports success even if neither it nor a new one could be
  attached (`FloatingIPs.FIPWithNova.Retain`).
- `createServer` returns no error when all five attempts failed (`Scheduler.CreateServer`).

## Model

| member | source | states |
|---|---|---|
| Text.TrimExactly | src/stormstack.org/stormio/conf/read.go:52 | trimming leaves exactly the part that is surrounded by white space and neither starts nor ends with any |
| Text.LowerExactly | src/stormstack.org/stormio/conf/conf.go:83 | lower-casing leads to text without capitals, and leaves a text alone if and only if it has none |
| Text.LowerLetters | src/stormstack.org/stormio/conf/conf.go:83 | each capital becomes the small letter at the same place of the alphabet, and no other character changes |
| Text.FirstSeparator | src/stormstack.org/stormio/conf/read.go:87 | the first `=` or `:`, or -1 if there is none |
| Text.LinesConcat | src/stormstack.org/stormio/conf/read.go:51 | splitting at newlines distributes over joining two texts with one |
| ConfigFiles.ConfigFile.constructor | src/stormstack.org/stormio/conf/conf.go:148-155 | a new configuration has exactly the empty default section and is valid |
| ConfigFiles.ConfigFile.AddSection | src/stormstack.org/stormio/conf/conf.go:82-91 | the whole new map, the result flag exactly when the lower-cased section was absent, validity kept |
| ConfigFiles.ConfigFile.RemoveSection | src/stormstack.org/stormio/conf/conf.go:95-111 | the whole new map; removed exactly when present and not the default section |
| ConfigFiles.ConfigFile.AddOption | src/stormstack.org/stormio/conf/conf.go:116-126 | the whole new map; inserted exactly when the lower-cased option was absent from that section |
| ConfigFiles.ConfigFile.RemoveOption | src/stormstack.org/stormio/conf/conf.go:131-143 | the whole new map; removed exactly when the section has the option |
| ConfigFiles.ConfigFile.GetRawString | src/stormstack.org/stormio/conf/get.go:82-97 | the stored value, or which of section and option is missing, with "" read as the default section |
| ConfigFiles.ConfigFile.GetSections | src/stormstack.org/stormio/conf/get.go:10-20 | the array filled by index holds every section once |
| ConfigFiles.ConfigFile.GetOptions | src/stormstack.org/stormio/conf/get.go:36-58 | default options, then the section's own, each once; the list agrees with HasOption for every name |
| ConfigFiles.FillFrom | src/stormstack.org/stormio/conf/get.go:47-55 | from the moving index on, every key of the map once, in any order; the array before and after that part stays |
| ConfigData.SectionsFound | src/stormstack.org/stormio/conf/get.go:24-31 | which look-ups find a section after one is added or removed: exactly those found before and those of that name, the default section always excepted; a section added under the empty name is found by it only as the default one |
| ConfigData.AddOptionAt | src/stormstack.org/stormio/conf/conf.go:116-126 | storing an option changes the entry at the lower-cased keys and no other, and adds no section but its own |
| ConfigData.RemoveOptionAt | src/stormstack.org/stormio/conf/conf.go:131-143 | removing an option takes out just that entry; its section stays |
| ConfigData.SectionsAt | src/stormstack.org/stormio/conf/conf.go:82-111 | adding a section changes no entry; removing one takes out just its entries, unless it is the default section |
| ConfigFiles.ConfigFile.HasSection | src/stormstack.org/stormio/conf/get.go:24-31 | the section is found, "" and the default section in any case |
| ConfigFiles.ConfigFile.HasOption | src/stormstack.org/stormio/conf/get.go:62-77 | true for exactly the options that GetOptions lists for the section, in whatever order, and false for a section that is not found |
| ConfigFiles.ConfigFile.Read | src/stormstack.org/stormio/conf/read.go:45-111 | terminates; data and error are those of the fold over trimmed lines, on success and on failure; validity kept |
| ConfigFiles.ConfigFile.HandleLine | src/stormstack.org/stormio/conf/read.go:78-102 | header, entry, continuation and the two errors act as one step of the fold |
| ConfigFiles.ReadString | src/stormstack.org/stormio/conf/read.go:51 | one line up to its newline, or the rest at the end of input, nothing lost |
| ConfigFiles.StripLine | src/stormstack.org/stormio/conf/read.go:113-121 | trying the markers in turn cuts at the earliest comment |
| ConfigFiles.ConfigFile.Write | src/stormstack.org/stormio/conf/write.go:35-64 | the text is the printed form for some iteration order of sections and options |
| ConfigFiles.WriteSections | src/stormstack.org/stormio/conf/write.go:44-59 | each section printed once, in the order that came up |
| ConfigFiles.WriteSection | src/stormstack.org/stormio/conf/write.go:45-58 | each option printed once under its header; an empty default section is skipped |
| ConfigFiles.ReadConfigBytes | src/stormstack.org/stormio/conf/read.go:32-41 | a new configuration with the scanned data, or none and the error of the scan |
| ConfigFiles.Reload | src/stormstack.org/stormio/conf/write.go:26-32 | writing an object out and reading it into a new one gives equal data if and only if it is well-formed |
| ConfigData.AddOptionKeepsValid | src/stormstack.org/stormio/conf/conf.go:116-126 | storing an option keeps the default section and lower-case keys |
| ConfigData.AddSectionKeepsValid | src/stormstack.org/stormio/conf/conf.go:82-91 | so does adding a section |
| ConfigData.RemovalsKeepValid | src/stormstack.org/stormio/conf/conf.go:95-143 | and so do both removals |
| ConfigRuns.EveryRunIsValid | src/stormstack.org/stormio/conf/conf.go:82-155 | so does every sequence of adds, removes and reads, failed reads included |
| ConfigRuns.LastWriteWins | src/stormstack.org/stormio/conf/conf.go:82-143 | after any series of adds and removes an entry holds the value stored last, if no later operation touched it, or else its first value if none did, and is absent otherwise |
| ConfigRuns.AddOptionKeepsWellFormed | src/stormstack.org/stormio/conf/conf.go:116-126 | adding an option keeps a configuration fit for a round trip if and only if the new names and value are |
| ConfigRead.StripInAnyOrder | src/stormstack.org/stormio/conf/read.go:113-121 | stripping equals cutting at the earliest of the four markers in whatever order they are tried |
| ConfigRead.CutAllIsEarliest | src/stormstack.org/stormio/conf/read.go:115-119 | the same for any list of these markers |
| ConfigRead.StrippedHasNoComment | src/stormstack.org/stormio/conf/read.go:113-121 | no prefix of a stripped line holds a marker |
| ConfigRead.CleanIsClean | src/stormstack.org/stormio/conf/read.go:92 | a stripped and trimmed value has no marker; cleaning it again changes nothing |
| ConfigRead.FinalNewline | src/stormstack.org/stormio/conf/read.go:50-62 | a missing final newline makes no difference to data or error |
| ConfigRead.ErrorIsFirst | src/stormstack.org/stormio/conf/read.go:83-101 | reading fails if and only if some line is refused after all earlier ones were accepted, and reports that line |
| ConfigLines.ReadInTurn | src/stormstack.org/stormio/conf/read.go:50-109 | the text after a newline is read in the state left by the text before it, unless that was refused |
| ConfigLines.IgnoredAnywhere | src/stormstack.org/stormio/conf/read.go:66-76 | a blank line, or one whose first visible characters are `#`, `;` or `rem` in any case, can be taken out of any text without a difference |
| ConfigLines.IgnoredExactly | src/stormstack.org/stormio/conf/read.go:66-76 | a line makes no difference to any reader if and only if it is one of these, spelled out character by character |
| ConfigLines.HeaderIsRead | src/stormstack.org/stormio/conf/read.go:78-81 | `[name]` makes the trimmed name the current section, adds it under its lower-case name if it is not there, ends the pending option, and changes nothing else |
| ConfigLines.EntryIsRead | src/stormstack.org/stormio/conf/read.go:89-93 | a line whose first `=` or `:` is past its first character stores the trimmed text behind it, without a comment marked by a space or tab and `;` or `#`, under the lower-case key and current section, and nothing else |
| ConfigLines.SomeValue | src/stormstack.org/stormio/conf/read.go:92 | every text has a value in the sense used for entries and continuations |
| ConfigLines.FirstEntryIsRead | src/stormstack.org/stormio/conf/read.go:48-49 | an entry before any header goes to the section `default` |
| ConfigLines.ContinuationIsRead | src/stormstack.org/stormio/conf/read.go:95-98 | any other plain line appends itself, cleaned the same way, to the pending value as a line of its own |
| ConfigLines.RefusedExactly | src/stormstack.org/stormio/conf/read.go:83-101 | exactly which lines are refused in which state, with which error, and that they change nothing |
| ConfigShape.StepKeepsGood | src/stormstack.org/stormio/conf/read.go:65-103 | each line keeps the data readable and the pending option stored under the current section |
| ConfigShape.ReadingYieldsReadable | src/stormstack.org/stormio/conf/read.go:45-111 | whatever text is read into a new configuration, even up to an error, the data has the readable shape |
| ConfigShape.ContinuationExtends | src/stormstack.org/stormio/conf/read.go:95-98 | the look-up whose error is ignored finds the pending option, and a continuation only extends its value |
| ConfigWrite.LinesOfPrinted | src/stormstack.org/stormio/conf/write.go:38-59 | the printed text is exactly its header line, section, entry and continuation lines |
| ConfigWrite.PrintedExactly | src/stormstack.org/stormio/conf/write.go:35-64 | the whole text: `# ` and the header, then for each section but an empty default one, once, `[name]`, each of its options once as `option=value`, and an empty line |
| ConfigRoundTrip.ReadPieces | src/stormstack.org/stormio/conf/read.go:95-98 | the later pieces of a printed value are read as continuations and restore the value |
| ConfigRoundTrip.ReadPrintedSection | src/stormstack.org/stormio/conf/read.go:78-98 | the lines of a printed section restore exactly that section |
| ConfigRoundTrip.WellFormedReadsBack | src/stormstack.org/stormio/conf/write.go:35-64 | a well-formed configuration is read back unchanged for every header line and every order |
| ConfigCount.ScanAddsAtMost | src/stormstack.org/stormio/conf/read.go:65-103 | reading gains at most one value piece per line that is not blank, comment or header |
| ConfigCount.HeaderLineLosesPieces | src/stormstack.org/stormio/conf/read.go:78-81 | if a printed line looks like a header, strictly fewer pieces come back |
| ConfigCount.RoundTrip | src/stormstack.org/stormio/conf/write.go:35-64 | for every configuration, header and order: the text reads back to it if and only if it is well-formed |
| ConfigReread.RereadExactly | src/stormstack.org/stormio/conf/read.go:45-111 | what was read survives another round if and only if none of its printed lines is a header |
| ConfigReread.RereadSafely | src/stormstack.org/stormio/conf/read.go:78 | text whose lines starting with `[` all end with `]` reads to a configuration that survives |
| ConfigReread.BracketLineLost | src/stormstack.org/stormio/conf/read.go:95-98 | a concrete text with a bracketed continuation that does not |
| Regions.MatchesChain | src/launchpad.net/goose/client/client.go:335-340 | of two regions that one user region ends with, the longer ends with the shorter |
| Regions.MatchesExactly | src/launchpad.net/goose/client/client.go:335-340 | a region matches if and only if the user's region is it with something in front |
| Regions.MissingAre | src/launchpad.net/goose/client/client.go:251-256 | the missing types are the required ones that cannot be reached |
| Regions.MissingInOrder | src/launchpad.net/goose/client/client.go:251-256 | the missing types stand in the order in which they are required, with their repetitions |
| Regions.UrlsOfMeans | src/launchpad.net/goose/client/client.go:189-196 | in whatever order, there is a URL for exactly the types that can be reached, each from a matching region |
| Regions.OrderIrrelevantExactly | src/launchpad.net/goose/client/client.go:189-196 | the URLs do not depend on the order if and only if no two matching regions list different URLs for a type |
| Regions.SuggestedReaches | src/launchpad.net/goose/client/client.go:260-272 | a suggested region reaches the one missing type, or two different missing types |
| Regions.SuggestedExactly | src/launchpad.net/goose/client/client.go:258-301 | a region is suggested if and only if it offers the only missing type, or there are two different missing types such that it offers one, ends with a region that offers the other, and no other region that ends with it offers the other |
| Regions.SuggestedTimes | src/launchpad.net/goose/client/client.go:258-301 | and how often: once for each ordered pair of positions of such types |
| Regions.SuggestionsHelpAllExactly | src/launchpad.net/goose/client/client.go:244-272 | every suggestion reaches every missing type, for every table, if and only if at most two different types are missing |
| Regions.Climb | src/launchpad.net/goose/client/client.go:291-301 | from a region reaching two types, longer and longer regions lead to a suggested one |
| Regions.ReachableIsSuggested | src/launchpad.net/goose/client/client.go:291-301 | if some region string reaches two types, a region is suggested for that pair |
| Regions.SuggestionsExist | src/launchpad.net/goose/client/client.go:260-272 | there is a suggestion if and only if the single missing type is offered somewhere, or some region string reaches two different missing types |
| Regions.SuggestionKeepsAccessExactly | src/launchpad.net/goose/client/client.go:258-272 | for all regions: whatever is offered and missing, moving to the suggested region keeps all access of the configured one if and only if one of the two ends with the other |
| Regions.RelatedKeepsAccess | src/launchpad.net/goose/client/client.go:335-340 | a more specific region keeps all access in every table, and a less specific one is never suggested |
| Regions.UnrelatedLosesAccess | src/launchpad.net/goose/client/client.go:258-272 | for any two unrelated regions there is a table in which the suggestion loses access |
| Strings.SortSorts | src/launchpad.net/goose/client/client.go:272 | sorting gives an ordered permutation |
| Strings.LessEqExactly | src/launchpad.net/goose/client/client.go:272 | the order: a string comes before another if it is its beginning, or has the smaller character where they first differ |
| Strings.SortIgnoresOrder | src/launchpad.net/goose/client/client.go:272 | sorting gives the same list in whatever order the elements were collected |
| Strings.SortedIsUnique | src/launchpad.net/goose/client/client.go:272 | there is one sorted list of given elements |
| Catalogue.BuildTable | src/launchpad.net/goose/identity/userpass.go:103-113 | for each region and type the table has the URL of the last endpoint, in the order of the catalogue, that is for both, and an entry if and only if there is such an endpoint |
| Catalogue.TableIsDetermined | src/launchpad.net/goose/identity/userpass.go:103-113 | this determines the table: a catalogue makes one table only |
| Catalogue.ReachesListed | src/launchpad.net/goose/identity/userpass.go:103-113 | a type can be reached through the table if and only if some endpoint of a service of that type is in a matching region |
| Catalogue.Auth | src/launchpad.net/goose/identity/userpass.go:75-115 | fails exactly when the request fails or the token is empty; else carries token, ids and table |
| ClientDefaults.Package.NewClient | src/launchpad.net/goose/client/client.go:90-116 | the new client requires the package's list, which a call without a list empties first; no token, the override as URL table |
| ClientDefaults.RequestHonouredExactly | src/launchpad.net/goose/client/client.go:92-102 | after any series of calls, a client gets the list it was made with if and only if that is the default list, or is empty after some call without one |
| ClientDefaults.NothingRequiredExactly | src/launchpad.net/goose/client/client.go:93-95 | later clients require nothing if and only if some earlier call gave no list |
| AuthClient.AuthenticatingClient.ExtractServiceTypeRegions | src/launchpad.net/goose/client/client.go:277-288 | inverts the table: for each type, the regions that offer it, each once |
| AuthClient.AddRegion | src/launchpad.net/goose/client/client.go:280-285 | one region is appended to the lists of just the types it offers |
| AuthClient.AppendPossibleRegions | src/launchpad.net/goose/client/client.go:291-301 | appends exactly the regions of one type that pass both suffix tests against the other |
| AuthClient.PairwiseRegions | src/launchpad.net/goose/client/client.go:262-271 | collects the suggestions of every ordered pair of different missing types, with repetitions |
| AuthClient.ProvidersDecide | src/launchpad.net/goose/client/client.go:315-333 | the two suffix tests on a list of providers decide what they say about the table |
| AuthClient.AuthenticatingClient.PossibleRegions | src/launchpad.net/goose/client/client.go:247-274 | the missing types in order; a sorted permutation of all suggestions |
| AuthClient.MatchingURLs | src/launchpad.net/goose/client/client.go:189-206 | one order of the regions decides the URLs of all types together: the matching regions are merged as they come up, later ones winning; found exactly when some region matches |
| AuthClient.RequiredAmong | src/launchpad.net/goose/client/client.go:217-222 | the types with a URL that are required |
| AuthClient.AuthenticatingClient.CreateServiceURLs | src/launchpad.net/goose/client/client.go:186-241 | succeeds exactly when nothing is missing, with such a table; else reports which error, the missing types and the suggestions, changing nothing |
| AuthClient.AuthenticatingClient.FindURLs | src/launchpad.net/goose/client/client.go:398-402 | an existing table is left alone; else one is made, if and only if no required type is missing |
| AuthClient.AuthenticatingClient.DoAuthenticate | src/launchpad.net/goose/client/client.go:381-409 | the whole new state after each outcome: token present, request failed, services missing, success; a prepared client stays prepared |
| AuthClient.AuthenticatingClient.Authenticate | src/launchpad.net/goose/client/client.go:381-409 | with a token nothing is asked; without one the identity service is asked once, and the client is let in if and only if the reply has a token and, unless there are URLs already, its catalogue lists for each required type an endpoint in a matching region; the new token and URLs are the reply's |
| AuthClient.AuthStepKeepsPrepared | src/launchpad.net/goose/client/client.go:398-407 | after any authentication of a prepared client, having URLs or a token still means a URL for every required type |
| AuthClient.AuthenticatingClient.ServiceURL | src/launchpad.net/goose/client/client.go:173-182 | a prepared client with a token has a URL for every required type, and none without a token |
| AuthClient.AuthenticatingClient.SendAuthRequest | src/launchpad.net/goose/client/client.go:159-171 | one attempt: with a token, expired or not, the request is sent at once to the URL of its type; without one only after the identity service was asked and let the client in; the result is the answer received, or which step failed |
| AuthClient.AuthenticatingClient.SendRequest | src/launchpad.net/goose/client/client.go:150-157 | if and only if the first attempt, or the authentication in it, was refused as unauthorised, the token is cleared and a second attempt follows, whose result counts; a prepared client finds an endpoint for each required type |
| AuthClient.AttemptSends | src/launchpad.net/goose/client/client.go:159-171 | an attempt sends at most one request, last, with a token and to the URL of its type, and asks the identity service if and only if there was no token |
| AuthProtocol.RunKeepsLock | src/launchpad.net/goose/client/client.go:342-409 | for every override, in every interleaving: lock and phases agree, and URLs once known stay |
| AuthProtocol.RunKeepsCover | src/launchpad.net/goose/client/client.go:342-409 | in every interleaving a prepared client stays prepared and every look-up under way will be served |
| AuthProtocol.OneCallInFlight | src/launchpad.net/goose/client/client.go:381-397 | for every override, at most one call of the authenticator is in flight |
| AuthProtocol.EveryInterleavingIsSafe | src/launchpad.net/goose/client/client.go:342-409 | a token means URLs for all required types, and look-ups that passed the token check are served, for overrides that cover the required types or are empty |
| AuthProtocol.UrlsAreNeverReplaced | src/launchpad.net/goose/client/client.go:398-403 | for every override, a non-empty URL table stays as it is, however tokens are cleared and renewed |
| AuthProtocol.SectionIsAtomic | src/launchpad.net/goose/client/client.go:381-409 | for every override and in every interleaving, a goroutine that finishes, with or without having called the authenticator, leaves the state and reports the outcome of one uninterrupted call from the state it found, even after its caller timed out |
| AuthProtocol.EveryOutcomeHappens | src/launchpad.net/goose/client/client.go:381-409 | and conversely, whenever the lock is free a goroutine can do whatever an uninterrupted call can do |
| AuthProtocol.TokenChanges | src/launchpad.net/goose/client/client.go:342-346 | the token changes only to the one a goroutine received, when it publishes it, and to none, when it is cleared |
| AuthProtocol.AnswersStayTrue | src/launchpad.net/goose/client/client.go:173-182 | although URLs are read without the lock, in every interleaving a URL once answered is and stays the one in the table |
| AuthProtocol.LookupRuns | src/launchpad.net/goose/client/client.go:173-182 | with the lock free, a look-up is refused if there is no token and otherwise answers what the table has |
| AuthProtocol.TokenSafetyExactly | src/launchpad.net/goose/client/client.go:398 | a token implies URLs for all required types in every reachable state if and only if the override is empty or covers them |
| AuthProtocol.QueriesServedExactly | src/launchpad.net/goose/client/client.go:173-182 | all look-ups that passed the token check are served in every interleaving if and only if the override is empty or covers the required types |
| Decimal.ItoaInjective | src/launchpad.net/goose/testservices/novaservice/service_http.go:565 | different counters have different decimal texts |
| Decimal.ValueOfItoa | src/launchpad.net/goose/testservices/novaservice/service_http.go:565 | reading the decimal text gives the number back |
| Decimal.ItoaDigits | src/launchpad.net/goose/testservices/novaservice/service_http.go:565 | the text has digits only, and no zero in front of others |
| NovaServer.Nova.constructor | src/launchpad.net/goose/testservices/novaservice/service.go:60-115 | one default group with id 999, nothing else, all invariants |
| NovaMeaning.NewMeans | src/launchpad.net/goose/testservices/novaservice/service.go:60-115 | a new service has the group 999 named `default`, and otherwise empty tables and no ids given out |
| NovaTables.RefusedExactly | src/launchpad.net/goose/testservices/novaservice/service.go:212-768 | each operation is refused for just the reasons listed, in that order |
| NovaTables.ServersEntry | src/launchpad.net/goose/testservices/novaservice/service.go:212-363 | what becomes of each server: it is added when new, gone when removed, and left alone by everything else |
| NovaTables.IPsEntry | src/launchpad.net/goose/testservices/novaservice/service.go:619-768 | the same for floating IPs, whose mark attaching and detaching change also when refused because of the list |
| NovaTables.RulesEntry | src/launchpad.net/goose/testservices/novaservice/service.go:430-528 | the same for rules in the index |
| NovaTables.GroupsEntry | src/launchpad.net/goose/testservices/novaservice/service.go:366-528 | the same for groups: a new one takes the tenant of the service, a rule is embedded last, and taken out with all others kept in order |
| NovaTables.GroupListsEntry | src/launchpad.net/goose/testservices/novaservice/service.go:531-616 | the same for servers' lists of groups: joining appends, leaving takes out the first occurrence, no other list changes |
| NovaTables.IPListsEntry | src/launchpad.net/goose/testservices/novaservice/service.go:690-768 | the same for servers' lists of IPs |
| NovaServer.Nova.AddServer | src/launchpad.net/goose/testservices/novaservice/service.go:212-221 | new tables and error as specified, counters unmoved; tables that agree still do |
| NovaServer.Nova.RemoveServer | src/launchpad.net/goose/testservices/novaservice/service.go:354-363 | tables and error as specified; the server's lists stay; tables that agree still do |
| NovaServer.Nova.AddSecurityGroup | src/launchpad.net/goose/testservices/novaservice/service.go:366-379 | tables and error as specified, under the store's own tenant; tables that agree still do if the group has no rules |
| NovaServer.Nova.RemoveSecurityGroup | src/launchpad.net/goose/testservices/novaservice/service.go:416-425 | tables and error as specified; its rules stay in the index; tables that agree still do |
| NovaServer.Nova.SecurityGroupByName | src/launchpad.net/goose/testservices/novaservice/service.go:394-404 | some group with the name, or there is none |
| NovaServer.Nova.AddSecurityGroupRule | src/launchpad.net/goose/testservices/novaservice/service.go:430-480 | four refusals in order, or the rule stored in group and index; tables that agree still do |
| NovaServer.Nova.HasSecurityGroupRule | src/launchpad.net/goose/testservices/novaservice/service.go:484-488 | every rule a group embeds is found, and while nothing is stale no other |
| NovaServer.Nova.RemoveSecurityGroupRule | src/launchpad.net/goose/testservices/novaservice/service.go:503-528 | out of the parent's list, if it is there, and out of the index; tables that agree still do |
| NovaServer.FindRule | src/launchpad.net/goose/testservices/novaservice/service.go:512-518 | the first position of the rule, or -1 |
| NovaServer.Nova.AddServerSecurityGroup | src/launchpad.net/goose/testservices/novaservice/service.go:531-552 | three refusals, or the group appended to the server's list; tables that agree still do |
| NovaServer.Nova.HasServerSecurityGroup | src/launchpad.net/goose/testservices/novaservice/service.go:555-572 | both exist and the list has the group |
| NovaServer.Nova.RemoveServerSecurityGroup | src/launchpad.net/goose/testservices/novaservice/service.go:589-616 | refusals, or the first occurrence taken out; tables that agree still do |
| NovaServer.Find | src/launchpad.net/goose/testservices/novaservice/service.go:603-609 | the first position of the id, or -1 |
| NovaServer.Nova.AddFloatingIP | src/launchpad.net/goose/testservices/novaservice/service.go:619-628 | refused exactly when the id exists; tables that agree still do if the IP is unattached |
| NovaServer.Nova.FloatingIPByAddr | src/launchpad.net/goose/testservices/novaservice/service.go:656-666 | some IP with the address, or there is none |
| NovaServer.Nova.RemoveFloatingIP | src/launchpad.net/goose/testservices/novaservice/service.go:678-687 | gone from the table; servers' lists stay; tables that agree still do |
| NovaServer.Nova.AddServerFloatingIP | src/launchpad.net/goose/testservices/novaservice/service.go:690-716 | the IP is marked even when the call is then refused; tables that agree still do |
| NovaServer.Nova.HasServerFloatingIP | src/launchpad.net/goose/testservices/novaservice/service.go:719-734 | the server lists an IP with the address, a missing IP counting as address "" |
| NovaServer.Nova.RemoveServerFloatingIP | src/launchpad.net/goose/testservices/novaservice/service.go:737-768 | the IP is unmarked even when the call is then refused; tables that agree still do |
| NovaServer.Nova.HandleJoinGroup | src/launchpad.net/goose/testservices/novaservice/service_http.go:464-474 | not found unless the server exists and the group found by name is one it is not in; then joined, or the store's refusal; the request is honoured (`NovaEffects.ServedIsHonoured`) |
| NovaServer.Nova.HandleLeaveGroup | src/launchpad.net/goose/testservices/novaservice/service_http.go:475-485 | not found unless the server exists and is in the group found by name; then left, or the store's refusal; the request is honoured (`NovaEffects.ServedIsHonoured`) |
| NovaServer.Nova.HandleAttachIP | src/launchpad.net/goose/testservices/novaservice/service_http.go:486-499 | not found unless the server exists, does not list the address and some IP has it; then attached, or the store's refusal; the request is honoured (`NovaEffects.ServedIsHonoured`) |
| NovaServer.Nova.HandleDetachIP | src/launchpad.net/goose/testservices/novaservice/service_http.go:500-513 | not found unless the server exists, lists the address and some IP has it; then detached, or the store's refusal; the request is honoured (`NovaEffects.ServedIsHonoured`) |
| NovaServer.Nova.HandleCreateGroup | src/launchpad.net/goose/testservices/novaservice/service_http.go:827-841 | bad request when the name is taken; else the counter moves and the group is stored under it, or refused with the counter moved all the same; the request is honoured (`NovaEffects.ServedIsHonoured`) |
| NovaServer.Nova.HandleDeleteGroup | src/launchpad.net/goose/testservices/novaservice/service_http.go:858-863 | not found for an unknown id; else the group and nothing else is gone; the request is honoured (`NovaEffects.ServedIsHonoured`) |
| NovaServer.Nova.HandleCreateRule | src/launchpad.net/goose/testservices/novaservice/service_http.go:892-919 | an error for an unknown group, bad request for a rule equal to a fully specified one of the group, both before the counter moves; else the store's answer under a new id; the request is honoured (`NovaEffects.ServedIsHonoured`) |
| NovaServer.Nova.HandleDeleteRule | src/launchpad.net/goose/testservices/novaservice/service_http.go:941-948 | not found for an unknown id; else gone from index and group; the request is honoured (`NovaEffects.ServedIsHonoured`) |
| NovaServer.Nova.HandleCreateIP | src/launchpad.net/goose/testservices/novaservice/service_http.go:985-992 | the counter moves and an unattached IP is stored with the address made from it; the request is honoured (`NovaEffects.ServedIsHonoured`) |
| NovaServer.Nova.HandleDeleteIP | src/launchpad.net/goose/testservices/novaservice/service_http.go:1004-1010 | not found for an unknown id; else gone from the table only; the request is honoured (`NovaEffects.ServedIsHonoured`) |
| NovaServer.Nova.HandleDeleteServer | src/launchpad.net/goose/testservices/novaservice/service_http.go:718-725 | not found for an unknown id; else gone from the table only; the request is honoured (`NovaEffects.ServedIsHonoured`) |
| NovaServer.Nova.HandleRunServer | src/launchpad.net/goose/testservices/novaservice/service_http.go:542-639 | bad request without name, image or flavor, before the counter moves, or with an unknown group, after it; else stored and its groups joined in turn, staying when one fails; the request is honoured (`NovaEffects.ServedIsHonoured`) |
| NovaServer.Nova.StoreServer | src/launchpad.net/goose/testservices/novaservice/service_http.go:614-631 | the server is stored, then its groups are joined in turn |
| NovaServer.HasSameRule | src/launchpad.net/goose/testservices/novaservice/service_http.go:897-913 | some rule is fully specified with this protocol and these ports |
| NovaServer.Nova.JoinGroups | src/launchpad.net/goose/testservices/novaservice/service_http.go:625-631 | joins in turn and stops at the first refusal |
| NovaServer.Nova.PickGroups | src/launchpad.net/goose/testservices/novaservice/service_http.go:570-584 | ids for all names but the default one, or some name is unknown |
| NovaInvariants.RunKeepsRules | src/launchpad.net/goose/testservices/novaservice/service.go:430-528 | in every run from rule-free groups, an embedded rule is in the index with the same value, names its group and occurs there once |
| NovaInvariants.RemoveRuleLeavesNoCopy | src/launchpad.net/goose/testservices/novaservice/service.go:503-528 | afterwards no group embeds the rule, other rules keep their order, nothing else changes |
| NovaInvariants.RemoveUndoesAddRule | src/launchpad.net/goose/testservices/novaservice/service.go:430-528 | removing a rule just added restores the tables exactly |
| NovaInvariants.AddGroupAgrees | src/launchpad.net/goose/testservices/novaservice/service.go:366-379 | a group brought in with rules keeps the agreement if and only if its rules are indexed under it |
| NovaInvariants.HasRuleExactly | src/launchpad.net/goose/testservices/novaservice/service.go:484-488 | the index query agrees with the embedded list when nothing is stale |
| NovaInvariants.StaleExactly | src/launchpad.net/goose/testservices/novaservice/service.go:416-425 | a new group brings the two views apart if and only if an indexed rule already names its id |
| NovaInvariants.RunKeepsLists | src/launchpad.net/goose/testservices/novaservice/service.go:531-768 | in every run with IPs entering unattached, refused calls included, an attached IP is in its server's list and no list has duplicates |
| NovaInvariants.EveryRunAgrees | src/launchpad.net/goose/testservices/novaservice/service.go:212-768 | after every run from empty tables both agreements hold, when groups are added without rules and IPs unattached |
| NovaInvariants.RefusedAttachChanges | src/launchpad.net/goose/testservices/novaservice/service.go:697-712 | a refused attachment changes nothing if and only if server or IP is unknown or the IP was so marked already |
| NovaInvariants.RefusedDetachChanges | src/launchpad.net/goose/testservices/novaservice/service.go:744-764 | a refused detachment changes nothing if and only if server or IP is unknown or the IP was unmarked |
| NovaInvariants.DetachUndoesAttach | src/launchpad.net/goose/testservices/novaservice/service.go:690-768 | detaching right after attaching restores all tables, but for an empty list |
| NovaRuns.EveryRunKeepsInv | src/launchpad.net/goose/testservices/novaservice/service_http.go:438-1015 | in every run of requests names and addresses stay distinct, no group holds the same fully specified rule twice, counters bound ids, tables agree, and lists and rules name only group ids that were given out |
| NovaRuns.CreateRuleKeeps | src/launchpad.net/goose/testservices/novaservice/service_http.go:892-919 | creating a rule keeps every group free of two fully specified rules with the same protocol and ports, and all other invariants |
| NovaRuns.StartServerKeeps | src/launchpad.net/goose/testservices/novaservice/service_http.go:542-639 | starting a server keeps the invariant also when joining its groups fails half way |
| NovaRuns.AddressesDistinct | src/launchpad.net/goose/testservices/novaservice/service_http.go:985-988 | two IPs with one address are the same IP |
| NovaReplies.ServedOneWay | src/launchpad.net/goose/testservices/novaservice/service_http.go:438-1015 | in reachable states the reply and new state do not depend on map order |
| NovaReplies.AttachSucceeds | src/launchpad.net/goose/testservices/novaservice/service_http.go:486-499 | an attachment that passes the handler's checks cannot be refused by the store |
| NovaReplies.DetachSucceeds | src/launchpad.net/goose/testservices/novaservice/service_http.go:500-513 | the IP found by address is the one in the server's list, so the inner call cannot refuse |
| NovaReplies.JoinSucceeds | src/launchpad.net/goose/testservices/novaservice/service_http.go:464-485 | joining and leaving, once checked, cannot be refused by the store |
| NovaReplies.CreateRuleFailsExactly | src/launchpad.net/goose/testservices/novaservice/service_http.go:892-919 | creating a rule fails inside if and only if its parent is unknown, or it is no duplicate and its source group is unknown |
| NovaReplies.JoinAllSucceeds | src/launchpad.net/goose/testservices/novaservice/service_http.go:625-631 | joining several groups succeeds if and only if they are distinct and none is joined yet |
| NovaReplies.InternalExactly | src/launchpad.net/goose/testservices/novaservice/service_http.go:438-1015 | which requests fail inside although their handler accepts them: if and only if a group is named twice, the group counter meets a live default group, or a rule's parent or source group is unknown |
| NovaReplies.StartFailsExactly | src/launchpad.net/goose/testservices/novaservice/service_http.go:564-630 | a new server has an id of its own, and starting it fails inside if and only if a group is named twice |
| NovaReplies.GoneForGood | src/launchpad.net/goose/testservices/novaservice/service_http.go:564-988 | in every run counters only grow and what is added has an id beyond them: no id of a server, rule or IP that is gone comes back, and no group id up to the counter; the default group's id, ahead of the counter at first, is the subject of `NovaReturns` |
| NovaRefs.ServingKeepsRefs | src/launchpad.net/goose/testservices/novaservice/service_http.go:438-1015 | the ids that servers' lists and rules hold on to, of deleted groups too, are ids that were given to some group |
| NovaReturns.ListsGrowByJoining | src/launchpad.net/goose/testservices/novaservice/service_http.go:464-474 | a request puts an id into the list of a server there is only if the server joins that group by it |
| NovaReturns.GroupsGrowByCreation | src/launchpad.net/goose/testservices/novaservice/service_http.go:827-841 | a request adds no group but one created under a free name, with the next id |
| NovaReturns.MembershipExactly | src/launchpad.net/goose/testservices/novaservice/service_http.go:832-839 | a request brings a server into a group it was not in if and only if the server joins it, or a new group gets the deleted default group's id 999 while the server's list still holds it |
| NovaReturns.GroupReturnsExactly | src/launchpad.net/goose/testservices/novaservice/service.go:77 | a group id once given out and gone comes back in some run if and only if it is 999 and the counter is below it |
| NovaReturns.MembershipReturnsExactly | src/launchpad.net/goose/testservices/novaservice/service_http.go:832-839 | in some run a server gets into a group without joining if and only if the group's id is 999, the server's list holds it and the counter is below it |
| NovaReturns.MembershipReturns | src/launchpad.net/goose/testservices/novaservice/service_http.go:858-863 | from a new service requests lead to such a state: a server joins the default group, the group is deleted, and created groups bring the membership back |
| NovaReturns.RuleReturnsExactly | src/launchpad.net/goose/testservices/novaservice/service.go:416-425 | an indexed rule its group does not show is shown again in some run if and only if the group is the deleted default group and the counter is below its id |
| NovaEffects.AcceptedGrants | src/launchpad.net/goose/testservices/novaservice/service_http.go:438-1015 | in reachable states an accepted request has done what it asked for: joined or left the group, attached or detached the address, created or removed group, rule, IP or server |
| NovaMeaning.ServedAsMeant | src/launchpad.net/goose/testservices/novaservice/service_http.go:438-1015 | each request, in reachable states, is accepted or refused under the condition spelled out for it, and all tables and counters afterwards are those spelled out: what changes, with every field, and that nothing else does |
| NovaEffects.JoinAllJoins | src/launchpad.net/goose/testservices/novaservice/service_http.go:625-631 | joining several groups without a refusal puts the server into all of them |
| NovaEffects.DeleteRuleGrants | src/launchpad.net/goose/testservices/novaservice/service_http.go:941-948 | after an accepted deletion no group embeds the rule and no query finds it |
| NovaEffects.DetachGrants | src/launchpad.net/goose/testservices/novaservice/service_http.go:500-513 | after an accepted detachment the server lists no IP with the address, stale entries included |
| NovaEffects.ServedIsHonoured | src/launchpad.net/goose/testservices/novaservice/service_http.go:438-1015 | a request served in a sound state leaves a sound state, is answered with an internal error if and only if it is one of those that fail inside, has been carried out if accepted, and has changed all tables and counters as it means (`NovaMeaning.Means`) |
| FloatingIPs.RemediationList.Track | src/stormstack.org/stormio/provision/serverprovision.go:572-577 | exactly this address is added |
| FloatingIPs.RemediationList.Delete | src/stormstack.org/stormio/provision/serverprovision.go:579-584 | exactly this address is dropped |
| FloatingIPs.FIPWithNova.ReleaseUnused | src/stormstack.org/stormio/provision/serverprovision.go:346-356 | the deletions asked for are exactly those of the listed IPs that are neither attached nor tracked, in order; no other IP goes, none is added or changed |
| FloatingIPs.ReclaimingAsks | src/stormstack.org/stormio/provision/serverprovision.go:346-356 | reclaiming asks, after a listing, for a deletion for each listed IP that is attached to no server and whose address is not tracked, in order, and for no other |
| FloatingIPs.FIPWithNova.AttachOrDelete | src/stormstack.org/stormio/provision/serverprovision.go:360-373 | the address is set and the attachment asked for; the IP is returned, attached, if this is answered with success, and otherwise its deletion is asked for; nothing else changes |
| FloatingIPs.RoundOutcome | src/stormstack.org/stormio/provision/serverprovision.go:340-377 | reclaiming followed by allocation and roll-back adds up to the outcome promised of an attachment |
| FloatingIPs.FIPWithNova.AttachRound | src/stormstack.org/stormio/provision/serverprovision.go:342-374 | an allocation is followed by setting the address and an attachment, and by the deletion if that is refused; a failed allocation by reclaiming; with the calls that were made |
| FloatingIPs.FIPWithNova.Attach | src/stormstack.org/stormio/provision/serverprovision.go:340-377 | attached and tracked IPs survive; the only new IP is the one allocated; it is returned, attached to the server, if and only if its attachment was answered with success, and on failure it is gone unless its deletion was not confirmed; every failed allocation is followed by reclaiming, a second one by giving up |
| FloatingIPs.AttachAsks | src/stormstack.org/stormio/provision/serverprovision.go:340-377 | the calls of an attachment hold at most one allocation, and exactly one attachment for it, at its address and to the server; the outcome is how that call was answered |
| FloatingIPs.FIPWithNova.Dettach | src/stormstack.org/stormio/provision/serverprovision.go:326-338 | when the listing has more than one IP and shows the address, the deletion of an IP with it is asked for, and success is its confirmation; otherwise nothing is asked for and an error is reported; only an IP with this address goes, and none while there is at most one |
| FloatingIPs.FIPWithNova.Retain | src/stormstack.org/stormio/provision/serverprovision.go:395-422 | after a listing, the old address is attached to the server if it is shown; if not, or if that fails, it is no longer tracked and a new IP is attached; an error is reported if and only if the server was given no IP and the listing does not show the address; protected IPs at other addresses survive, old ones are unchanged but for the address given back, and the one new IP is accounted for |
| FloatingIPs.FIPWithNova.FindListed | src/stormstack.org/stormio/provision/serverprovision.go:397-406 | asks for one listing and says whether it shows the address; a failed listing shows none |
| FloatingIPs.FIPWithNova.AttachInstead | src/stormstack.org/stormio/provision/serverprovision.go:413-419 | the old address is no longer tracked, and a new IP is attached to the server or accounted for, with the calls of an attachment |
| FloatingRaces.RunKeeps | src/stormstack.org/stormio/provision/serverprovision.go:340-377 | with attachments interleaved call by call, no reclaiming, attachment or roll-back is ever about to touch an IP protected at the start |
| FloatingRaces.StepOnIP | src/stormstack.org/stormio/provision/serverprovision.go:340-377 | what each call does to each IP: an allocation adds one, an attachment attaches the one with the address even if its answer is lost, a deletion that is done removes just that one |
| FloatingRaces.EveryInterleavingKeepsProtected | src/stormstack.org/stormio/provision/serverprovision.go:340-377 | however any number of attachments interleave, IPs attached or tracked at the start are neither deleted nor re-attached |
| FloatingCalls.InterleavedCallsAreAttach | src/stormstack.org/stormio/provision/serverprovision.go:340-377 | in every interleaving, the calls made for a server whose attachment has returned are those of an uninterrupted attachment with the same outcome |
| FloatingRaces.RaceRun | src/stormstack.org/stormio/provision/serverprovision.go:346-353 | between any two of any number of servers there is a run, with no more than two attachments under way together, in which one loses the IP it was just given, because the other reclaims from an old listing |
| FloatingRaces.ServedExactly | src/stormstack.org/stormio/provision/serverprovision.go:340-377 | for every limit m: if no more than m attachments are ever under way together, then for any number of servers each one given an IP keeps it in every run, if and only if m is at most 1 |
| FloatingRaces.SerialStep | src/stormstack.org/stormio/provision/serverprovision.go:340-377 | while one attachment at most is under way, no listing to reclaim, new IP or roll-back concerns an IP that was given to a server |
| FloatingRaces.SerialRun | src/stormstack.org/stormio/provision/serverprovision.go:340-377 | attachments made one after another, for any number of servers, leave each server the IP it was given |
| Provisioning.AssetRequest.RegisterStormAgent | src/stormstack.org/stormio/stormstack/stormstack.go:106-134 | the request names the server even when registering fails; an agent registered is also added to the domain, and success means both succeeded |
| Provisioning.PickAddresses | src/stormstack.org/stormio/provision/serverprovision.go:183-194 | the public addresses if there are any, else the private ones, else those of some network |
| Provisioning.OwnExactly | src/stormstack.org/stormio/provision/serverprovision.go:183-203 | which address is the server's own: the second, else only, of the public addresses; without any, of the private ones; without any, of some network |
| Provisioning.ServiceProvision.ObtainIP | src/stormstack.org/stormio/provision/serverprovision.go:156-164 | retains the address of a remediation or attaches a new IP, with the calls of that; a failure is reported if and only if the server was given no IP and it is not a remediation whose first listing shows the old address; every IP is accounted for |
| Provisioning.ServiceProvision.NameServer | src/stormstack.org/stormio/provision/serverprovision.go:165-175 | names of the address are looked up, and the server is renamed to the first of them if the look-up reported an error all the same |
| Provisioning.ServiceProvision.FinishInstance | src/stormstack.org/stormio/provision/serverprovision.go:165-217 | the server is named, its details are asked for once, and it is registered if the request names a tracker; the address attached is kept, an empty one becomes the second, else only, address of the public, private or some network in the details; each of three failures is reported exactly when its step failed |
| Provisioning.ServiceProvision.EquipInstance | src/stormstack.org/stormio/provision/serverprovision.go:155-217 | a server just made is given an IP and finished, unless a failure to give it one is reported; how the outcome relates to the IP it holds |
| Provisioning.ServiceProvision.ProvisionInstance | src/stormstack.org/stormio/provision/serverprovision.go:127-218 | the outcome follows step by step from the calls made and their answers: the server is created, given an IP, named, looked at and registered until a step fails, which gives the code; past ErrorAssociateIP the new server holds an IP, unless a remediation's failure was hidden; its address is the one reported unless that was empty or the old one; every IP is accounted for |
| Provisioning.ServiceProvision.DeprovisionInstance | src/stormstack.org/stormio/provision/serverprovision.go:305-319 | the deletion of exactly the request's server is asked for, and its answer returned; IPs of other servers stay; only a remediation's address is given up and tracked |
| Scheduler.LogHolds | src/stormstack.org/stormio/scheduler/scheduler.go:129-154 | the server calls made are exactly those of the attempts, clean-up included |
| Scheduler.CleanedUpExactly | src/stormstack.org/stormio/scheduler/scheduler.go:137-151 | a server made by an attempt has its deletion requested if and only if the attempt failed with another code than ErrorServerDetail and its id is not empty |
| Scheduler.OnlyOwnServersDeleted | src/stormstack.org/stormio/scheduler/scheduler.go:144-146 | no server is deleted that these attempts did not make |
| Scheduler.ProvisionOnce | src/stormstack.org/stormio/scheduler/scheduler.go:130-131 | what one attempt does to servers, IPs and tracked addresses before its clean-up |
| Scheduler.DeletionIsClean | src/stormstack.org/stormio/scheduler/scheduler.go:143-146 | deleting the server of an attempt disturbs no IP that was there before the attempt |
| Scheduler.CleanUp | src/stormstack.org/stormio/scheduler/scheduler.go:143-146 | giving up the server of a failed attempt completes the attempt's effect: its deletion is asked for, and only its own IPs and the request's address are disturbed |
| Scheduler.TryOnce | src/stormstack.org/stormio/scheduler/scheduler.go:130-151 | the error's type assertion cannot fail; effect of one attempt with its clean-up on servers, IPs and tracked addresses, and that its outcome follows from the calls made |
| Scheduler.ProgressStep | src/stormstack.org/stormio/scheduler/scheduler.go:129-154 | one more attempt keeps the account of servers and IPs of all attempts together |
| Scheduler.FiveAttempts | src/stormstack.org/stormio/scheduler/scheduler.go:129-154 | at most five attempts, stopping at the first success; all calls made are those of the attempts, in order, each outcome following from its calls |
| Scheduler.Connection.Update | src/stormstack.org/stormio/persistence/mongoaccess.go:49-52 | the record as it stands is written |
| Scheduler.CreateServer | src/stormstack.org/stormio/scheduler/scheduler.go:117-164 | an error if and only if there is no provider; else SERVER_CREATED exactly when the last attempt succeeded, with its id and non-empty address, the server holding the IP it was given, which only a remediation can lack, or RETRY after five; both records written; all calls are those of the attempts; new servers only, each IP accounted for |

## Left out

- HTTP, JSON, methods and paths of requests, reading requests, response bodies, logging, sleeps, rate limits and error texts: plumbing around what is modelled.
- Non-ASCII white space and case, opening and writing files, and read errors other than end of input in `conf`.
- `GetString`, `GetInt`, `GetFloat64`, `GetBool`: conversions of what `GetRawString` returns.
- The deletions inside a section that `RemoveSection` is about to delete: no one else holds the inner map in the model.
- A header text that contains a newline: every theorem about printing takes a header that is one line.
- `otherServiceTypeRegions` and `knownRegions` in `createServiceURLs`: filled and never read.
- `SetRequiredServiceTypes`, nil credentials and a nil authentication method: a client keeps the list it was made with.
- Time-outs of an authentication outside `AuthProtocol`: `Authenticate` is modelled as one whole call.
- `makeURL`, the legacy authentication method and the provider cache.
- AuthProtocol.EveryInterleavingIsSafe: unsynchronised Go reads are taken to see one of the tables written; torn reads are not modelled.
- Flavors, links, UUIDs, metadata, server filters and server addresses of the Nova double: no other table depends on them.
- Control hooks of the Nova double: no hook is registered.
- The integer width of the Nova counters: they are unbounded.
- Sharing of slice memory between the Nova tables and copies returned earlier: removals shift elements in place, which such copies would see.
- `waitServerToStart`: polling until the server is active; its result is always nil and its delay is not modelled.
- `Cloud` states what is taken for granted of the compute service: unique ids and addresses, no effect of a failed creation, any effect of other failed calls. The nova client that talks to it is not modelled.
- The lock of the remediation list, which `Find` does not take.
- Floating IPs through Neutron, whose behaviour is not in the repository, and `CheckAvailability`, a subtraction.
- Other requests working on the same cloud at the same time: `FloatingRaces` models this for attachments; the rest of provisioning is modelled one request at a time.
- The choice between nova and neutron in `NewServiceProvision`, the URL override built from a provider, and what a registered agent's record holds besides its id.
- The call that deregisters an agent that could not be added to the domain: it runs on its own and its outcome is not used.
- The request handlers around `createServer`: notification, rescheduling, `terminateInstance`. The model of `Update` records what is written and does not model a failing write, whose error the source drops.
- FloatingIPs.FIPWithNova.Attach: that a failed attachment leaves no IP is stated up to a deletion the cloud did not confirm, because the source does not try again.
- FloatingIPs.FIPWithNova.Dettach: the filter sent with the listing is not modelled; the listing may omit any IP.
- Scheduler.CreateServer: an IP at a remediation's own address may be changed or deleted by any attempt; the account leaves that address out.
