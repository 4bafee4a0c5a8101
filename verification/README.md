# IBM block storage CSI operator: the deterministic core

The IBM block storage CSI operator installs and runs the IBM block storage CSI driver on
Kubernetes and OpenShift. Most of the repository is reconcilers that talk to the API
server. This project models the small, self-contained pieces of logic among them, and the
two CI scripts that ship with it:

- **CI job selection.** The release script keeps the newest test job per platform bucket
  (k8s, x86 OCP, Z OCP), with its major/minor update rule as written (`JenkinsJobs`).
- **Scan-report filter.** The gosec report filter deletes members of the report in place
  and exits with status 1 on a missing key (`ScanFilter`).
- **iscsiadm driver.** The sendtargets parser, and discover-and-login/logout over the
  portals. It exists as an admin object (`NodeIscsi`) and as package functions
  (`PkgIscsi`).
- **String and list helpers:**
  - the storage host-name sanitiser (`StorageAgent`);
  - resource names (`Resources`);
  - node address ordering (`NodeAddresses`);
  - finalizer lists (`DataStructures`);
  - volume-group claim lists (`VolumeGroupPVCs`);
  - reserved volume-group parameters (`VolumeGroupParameters`);
  - label and annotation merging (`HostDefinerMeta`, `CsiMeta`);
  - image references (`CrCommon`).
- **Custom-resource defaulting.** Each setter changes the spec in place and answers
  whether the resource must be written back: `CsiDefaults`, `HostDefaults`,
  `ConfigDefaults`, `LegacyCsiDefaults`.
- **Small stateful components:**
  - the fake node-agent response store (`FakeStore`);
  - the REST response classes and content handling (`RestClient`);
  - the SVC array mediator, with its token and one retry after a 403 (`SvcMediator`).
- **Decision rules:**
  - the controllers' event filters (`EventFilters`);
  - the optional-boolean helpers (`BoolPtr`);
  - the CSI controller syncer's sidecar lookup, environment, mounts and worker count
    (`ControllerSyncer`).

State that the source changes in place is a class, whose methods are proved against a
specification function. The properties the code and its tests promise are lemmas about
those functions. `Wrappers` and `Strings` hold the shared Option type and string helpers.

The job-selection script only lists job names, picks one per bucket and prints the three
picks. It does not start, wait for or aggregate builds, whatever its role in the release
flow suggests; the model follows the code. Its pick is meant to be the job with the
greatest (major, minor) version, and the code's rule differs from that; see "## Findings".

## Model

| member | source | states |
|---|---|---|
| JenkinsJobs.Major | publish/get_latest_version_of_our_test_jenkins_jobs.py:17-18 | the major is `int()` of the last character of the first `.`-segment: a digit's value, and a raise for an empty segment or any other character (PyIntOneChar) |
| JenkinsJobs.Minor | publish/get_latest_version_of_our_test_jenkins_jobs.py:17-21 | the minor is `int()` of the second `.`-segment, as `Strings.PyInt` reads it (sign, padding and underscores included), and a raise when there is no second segment |
| JenkinsJobs.Next | publish/get_latest_version_of_our_test_jenkins_jobs.py:16-23 | one get_list_of_latest_jobs step on values; its meaning is stated by SmallerMajorKeeps, NextReplacesOnlyWhenBothAtLeast and TieLaterWins |
| JenkinsJobs.Latest.Update | publish/get_latest_version_of_our_test_jenkins_jobs.py:16-23 | succeeds exactly when the per-name step `Next` does and then leaves the bucket at its result; when the minor raises, the major counter has already advanced and the job and minor are unchanged |
| JenkinsJobs.GetTheDesiredJobs | publish/get_latest_version_of_our_test_jenkins_jobs.py:25-49 | the three printed lines are `Printed(names)`: each bucket's retained job after the routed names, in k8s, x86 OCP, Z OCP order, or no output when a name raises |
| JenkinsJobs.Routed | publish/get_latest_version_of_our_test_jenkins_jobs.py:36-45 | the names a bucket sees are a subsequence of the listed names, in order |
| JenkinsJobs.RoutedMembers | publish/get_latest_version_of_our_test_jenkins_jobs.py:38-45 | a name reaches a bucket iff it passes that bucket's lower-cased tests, which exclude every name containing "deprecated" in any case; the three tests are independent |
| JenkinsJobs.SmallerMajorKeeps | publish/get_latest_version_of_our_test_jenkins_jobs.py:19 | a major below the stored one leaves job, major and minor as they were |
| JenkinsJobs.NextReplacesOnlyWhenBothAtLeast | publish/get_latest_version_of_our_test_jenkins_jobs.py:19-23 | no counter decreases; the job is replaced iff major and minor are both at least the stored ones, otherwise job and minor stay even when the major advances |
| JenkinsJobs.TieLaterWins | publish/get_latest_version_of_our_test_jenkins_jobs.py:19-23 | on an exact tie of major and minor the later name is retained |
| JenkinsJobs.TrackedMajorIsMax | publish/get_latest_version_of_our_test_jenkins_jobs.py:19-20 | after a bucket's names, the stored major is the greatest major among them (0 with none) |
| JenkinsJobs.TrackedRetainsAJob | publish/get_latest_version_of_our_test_jenkins_jobs.py:21-23 | the stored minor stays at least 0; the retained job is "" with no names and while none was taken (minor still 0), is not "" once a first name with a non-negative minor came, and otherwise is one of the names, whose minor is the stored minor and whose major is at most the stored major |
| JenkinsJobs.NegativeMinorsTakeNothing | publish/get_latest_version_of_our_test_jenkins_jobs.py:20-23 | when every name's minor is missing or negative, the retained job stays "" |
| JenkinsJobs.SignedMinorContinues | publish/get_latest_version_of_our_test_jenkins_jobs.py:17-23 | `<p>4.-1` does not raise: the major advances to 4 while the job stays "" and the minor 0 |
| JenkinsJobs.FoldSelectsRoutedName | publish/get_latest_version_of_our_test_jenkins_jobs.py:26-49 | a printed job is "" when no listed name passes the bucket's tests and not "" when the first that passes has a non-negative minor; a printed job is a listed name that passes them, never a deprecated one |
| JenkinsJobs.NoJobsPrintsEmptyLines | publish/get_latest_version_of_our_test_jenkins_jobs.py:26-49 | with no job at all the script prints three empty lines |
| JenkinsJobs.DottedMajorRaises | publish/get_latest_version_of_our_test_jenkins_jobs.py:17-18 | a routed name whose first `.`-segment does not end in a digit makes the step raise |
| JenkinsJobs.QuirkKeepsOlderJob | publish/get_latest_version_of_our_test_jenkins_jobs.py:19-23 | after `<p>3.5` then `<p>4.2` the k8s bucket keeps `<p>3.5` with major 4 and minor 5: the newer job is not selected |
| JenkinsJobs.LexTrackedIsMax | publish/get_latest_version_of_our_test_jenkins_jobs.py:16-23 | with the corrected update (which always takes the first name) the retained job carries the lexicographically greatest (major, minor) of the bucket's names and the counters are its own version |
| JenkinsJobs.LexSelectsNewest | publish/get_latest_version_of_our_test_jenkins_jobs.py:16-23 | with the corrected update the quirk's example selects `<p>4.2` |
| Strings.PyIntPrinted | publish/get_latest_version_of_our_test_jenkins_jobs.py:20-21 | `int()` reads back every integer `str()` prints, negative ones included |
| Strings.PyIntDigits | publish/get_latest_version_of_our_test_jenkins_jobs.py:20-21 | on a non-empty run of ASCII digits `int()` gives their decimal value, as `ParseNat` does |
| Strings.PyIntOneChar | publish/get_latest_version_of_our_test_jenkins_jobs.py:18 | `int()` of one character succeeds exactly for a digit, giving its value |
| Strings.PyIntSigned | publish/get_latest_version_of_our_test_jenkins_jobs.py:20-21 | a leading `-` or `+` before digits gives the negative or positive number |
| Strings.PyIntAcceptsSigned | publish/get_latest_version_of_our_test_jenkins_jobs.py:20-21 | `int("-1")` is -1 where digit-only parsing fails |
| Strings.PyIntAcceptsPadded | publish/get_latest_version_of_our_test_jenkins_jobs.py:20-21 | `int(" 7\n")` is 7: white space around the number is ignored |
| Strings.PyIntAcceptsUnderscore | publish/get_latest_version_of_our_test_jenkins_jobs.py:20-21 | `int("1_0")` is 10: an underscore between digits is ignored |
| Strings.PyIntRejects | publish/get_latest_version_of_our_test_jenkins_jobs.py:20-21 | doubled or leading underscores, a lone sign and the empty string raise ValueError |
| BoolPtr.IsTrue | pkg/util/boolptr/boolptr.go:4-6 | the pointer is set and holds true; with IsFalse its meaning is stated by TrueFalseExclusive |
| BoolPtr.IsFalse | pkg/util/boolptr/boolptr.go:9-11 | the pointer is set and holds false |
| BoolPtr.Equal | pkg/util/boolptr/boolptr.go:26-32 | false when either pointer is nil, else the values compared; stated by EqualMeaning |
| BoolPtr.NilOrEqual | pkg/util/boolptr/boolptr.go:35-43 | true for two nils, false for one nil, else the values compared; stated by NilOrEqualMeaning |
| BoolPtr.True | pkg/util/boolptr/boolptr.go:14-17 | the result is set and true, so IsTrue holds and IsFalse does not |
| BoolPtr.False | pkg/util/boolptr/boolptr.go:20-23 | the result is set and false, so IsFalse holds and IsTrue does not |
| BoolPtr.TrueFalseExclusive | pkg/util/boolptr/boolptr.go:4-11 | IsTrue and IsFalse never hold together, and one of them holds iff the value is set (not nil) |
| BoolPtr.EqualMeaning | pkg/util/boolptr/boolptr.go:26-32 | Equal holds iff both are set with the same value; it is symmetric |
| BoolPtr.NilOrEqualMeaning | pkg/util/boolptr/boolptr.go:35-43 | NilOrEqual is equality of the optional values, symmetric, implied by Equal, and differs from Equal exactly on two nils |
| DataStructures.Without | old_pkg/controller/util/datastructures.go:12-20 | the list without every element equal to `s`, order kept; stated by WithoutMembers, WithoutAppend and WithoutCount, and computed by Remove |
| DataStructures.Contains | old_pkg/controller/util/datastructures.go:3-10 | true iff some element equals `s` |
| DataStructures.Remove | old_pkg/controller/util/datastructures.go:12-20 | the result is the list without the elements equal to `s` (`Without`) |
| DataStructures.WithoutMembers | old_pkg/controller/util/datastructures.go:14-18 | an element is in the result iff it is in the list and is not `s`; so `s` is no longer contained |
| DataStructures.WithoutAppend | old_pkg/controller/util/datastructures.go:14-18 | removal distributes over concatenation, so the kept elements keep their order |
| DataStructures.WithoutCount | old_pkg/controller/util/datastructures.go:13-19 | the result's multiset is the input's with every `s` dropped, and its length is the input's minus the occurrences of `s` |
| DataStructures.WithoutAbsent | old_pkg/controller/util/datastructures.go:13-19 | removing an absent string returns the list unchanged |
| DataStructures.RemoveIdempotent | old_pkg/controller/util/datastructures.go:12-20 | removing twice equals removing once |
| Resources.GetNameForResource | pkg/config/resources.go:55-68 | every name starts `<driver>-`; the controller, node and their service accounts drop the `csi-` prefix, every other resource is `<driver>-<name>` |
| Resources.SuffixOfName | pkg/config/resources.go:55-68 | the text after `<driver>-` is determined by the resource name alone |
| Resources.NamesDistinct | pkg/config/resources.go:28-68 | no two declared resources of one driver get the same object name |
| JenkinsJobs.Latest.constructor | publish/get_latest_version_of_our_test_jenkins_jobs.py:26-34 | a bucket starts with no job and both counters at 0 |
| JenkinsJobs.Feed | publish/get_latest_version_of_our_test_jenkins_jobs.py:36-45 | handing the next name to a bucket keeps its record equal to the fold over the names so far, or the whole run raises |
| JenkinsJobs.PrintedAll | publish/get_latest_version_of_our_test_jenkins_jobs.py:47-49 | the three printed lines are the k8s, x86 OCP and Z OCP jobs, in that order |
| FakeStore.Responses.constructor | pkg/node/fakeserver/store.go:29-32 | a response list starts empty with its index at 0 |
| FakeStore.Registry.constructor | pkg/node/fakeserver/store.go:27 | the global store starts with no stub |
| RestClient.IsSuccessful | pkg/restclient/client.go:48-50 | the status code is in [200, 300) |
| RestClient.IsUnauthorized | pkg/restclient/client.go:52-54 | the status code is 401 |
| RestClient.IsForbidden | pkg/restclient/client.go:56-58 | the status code is 403 |
| RestClient.NewRequest | pkg/restclient/client.go:157-168 | the method switch over GET, POST and DELETE, with the zero Response otherwise; stated by NewRequestDispatch |
| RestClient.Content | pkg/restclient/client.go:170-184 | the response setContent leaves; stated by ContentDecodesOnlyOnSuccess and SetContent |
| RestClient.ResponseBuilder.constructor | pkg/restclient/client.go:42-46 | a response starts as Go's zero Response |
| SvcMediator.BuildUrl | pkg/arrayactions/svc.go:133-135 | the request URL; stated by UrlShape |
| SvcMediator.CallOutcome | pkg/arrayactions/svc.go:82-106 | call's error and authorized answer for a response; stated by CallOutcomeMeaning |
| SvcMediator.CreateHostBody | pkg/arrayactions/svc.go:36-50 | the mkhost body; stated by CreateHostBodyShape |
| SvcMediator.Mediator.constructor | pkg/arrayactions/svc.go:24-34 | a mediator holds the array's address and credentials, has no token and has sent nothing |
| ScanFilter.Filter | build/ci/code_scanning/code_scan_results/filter_code_scan_results.py:6-18 | the script's outcome; computed by RunFilter, stated by FalsyWrittenUnchanged, FilterWritten and GosecSucceedsIff |
| ScanFilter.DeleteKeys | build/ci/code_scanning/code_scan_results/filter_code_scan_results.py:26-32 | the `del` loop with its KeyError; stated by DeleteKeysSucceeds, DeleteKeysFails and DeleteKeysStops |
| ScanFilter.StripIssues | build/ci/code_scanning/code_scan_results/filter_code_scan_results.py:35-42 | the inner `del` loop over the issues, keeping their number; stated by StripIssuesSucceeds, StripIssuesFails and StripIssuesStops |
| ScanFilter.JsonDict.constructor | build/ci/code_scanning/code_scan_results/filter_code_scan_results.py:10 | the dict holds the deserialised members |
| ScanFilter.Report.constructor | build/ci/code_scanning/code_scan_results/filter_code_scan_results.py:10 | the report is a fresh dict holding the deserialised members |
| RestClient.StatusClassesExclusive | pkg/restclient/client.go:48-58 | successful (2xx), unauthorized (401) and forbidden (403) never hold together |
| RestClient.NewRequestDispatch | pkg/restclient/client.go:157-168 | GET, POST and DELETE go to the transport with their verb, URL and headers, only POST with the body; any other method gives the zero response, which is neither successful, unauthorized nor forbidden and carries no error |
| RestClient.ResponseBuilder.SetContent | pkg/restclient/client.go:171-184 | the response becomes `Content(old response, reply, ...)`: status always, then the read error or the body and, when successful with exactly one target, the decoding error |
| RestClient.ContentDecodesOnlyOnSuccess | pkg/restclient/client.go:171-184 | the status is always copied; a failed read records its error and keeps the old body; the decoding outcome replaces the error only for a 2xx reply with exactly one target, otherwise the earlier error stays |
| EventFilters.CreateDeleteAccepts | pkg/controller/predicate/predicate.go:30-44 | CreateDeletePredicate: update and generic events are refused, the rest kept; stated by CreateFiltersMeaning |
| EventFilters.CreateAccepts | pkg/controller/predicate/predicate.go:45-64 | CreatePredicate: only create events are kept |
| EventFilters.NodeAccepts | pkg/controller/predicate/predicate.go:65-104 | NodePredicate: stated by NodeCreateMeaning, NodeUpdateMeaning and NodeIgnores |
| EventFilters.PVCAccepts | volume-group-operator/controllers/persistentvolumeclaim/settings.go:29-42 | pvcPredicate: stated by PVCUpdateMeaning and PVCOtherEvents |
| EventFilters.IsLabelsChanged | volume-group-operator/controllers/persistentvolumeclaim/settings.go:47-50 | the claims' label maps differ, nil and empty being different (NilLabelsDifferFromEmpty) |
| EventFilters.IsPhaseChanged | volume-group-operator/controllers/persistentvolumeclaim/settings.go:52-55 | the claims' phases differ |
| EventFilters.CreateFiltersMeaning | pkg/controller/predicate/predicate.go:30-63 | CreatePredicate accepts exactly create events, CreateDeletePredicate exactly create and delete events |
| EventFilters.NodeCreateMeaning | pkg/controller/predicate/predicate.go:73-80 | a create is accepted iff the object is a node with a non-empty address list |
| EventFilters.NodeUpdateMeaning | pkg/controller/predicate/predicate.go:82-99 | an update is accepted iff the resource version changed, both objects are nodes and their address lists differ |
| EventFilters.NodeIgnores | pkg/controller/predicate/predicate.go:82-104 | an update under the same resource version or with equal addresses is rejected, and so is every generic event |
| EventFilters.PVCUpdateMeaning | volume-group-operator/controllers/persistentvolumeclaim/settings.go:36-55 | a claim update is accepted iff the labels or the phase differ; other fields play no part |
| EventFilters.PVCOtherEvents | volume-group-operator/controllers/persistentvolumeclaim/settings.go:30-41 | creates are always accepted, deletes and generic events never |
| EventFilters.NilLabelsDifferFromEmpty | volume-group-operator/controllers/persistentvolumeclaim/settings.go:47-50 | labels going from nil to an empty map count as a change, as reflect.DeepEqual tells them apart |
| NodeAddresses.AppendOfType | pkg/util/utils.go:101-106 | one append loop adds the addresses of one type after the list, in input order |
| NodeAddresses.GetNodeAddresses | pkg/util/utils.go:96-121 | the result is `Ordered`: internal IPs, then external IPs, then host names |
| NodeAddresses.OfTypeAppend | pkg/util/utils.go:101-106 | selecting one type distributes over concatenation, so input order is kept within a type |
| NodeAddresses.OfTypeMembers | pkg/util/utils.go:101-118 | an address is listed under a type iff the node reports it with that type |
| NodeAddresses.OrderedMembers | old_pkg/util/utils.go:93-117 | an address is in the result iff the node reports it as internal IP, external IP or host name |
| NodeAddresses.OrderedLength | pkg/util/utils.go:97-121 | the result is never longer than the input, and exactly as long iff no address is of another type |
| NodeAddresses.UnlistedDropped | old_pkg/util/utils.go:93-117 | an address of any other type leaves the result unchanged |
| NodeAddresses.ReversedNodeExample | pkg/util/utils.go:96-121 | host name, external, internal come back as internal, external, host name |
| NodeAddresses.EmptyNodeExample | pkg/util/utils.go:96-121 | a node with no addresses yields an empty list |
| VolumeGroupParameters.Unprefixed | volume-group-operator/controllers/utils/parameters.go:27-36 | the entries whose key lacks the prefix; stated by UnprefixedMeaning and computed by FilterPrefixedParameters |
| VolumeGroupParameters.FilterPrefixedParameters | volume-group-operator/controllers/utils/parameters.go:27-36 | the new map is `Unprefixed(prefix, param)`, for every map iteration order |
| VolumeGroupParameters.UnprefixedMeaning | volume-group-operator/controllers/parameters.go:38-47 | a key is kept iff it is in the input and lacks the prefix, and keeps its value |
| VolumeGroupParameters.UnprefixedSubmapIdempotent | volume-group-operator/controllers/utils/parameters.go:28-33 | the result's keys are input keys, and filtering twice equals filtering once |
| VolumeGroupParameters.ValidatePrefixedParameters | volume-group-operator/controllers/utils/parameters.go:40-61 | nil iff no entry is rejected; an error is the rejection of some entry, whichever the map order meets first |
| VolumeGroupParameters.UnprefixedNeverRejected | volume-group-operator/controllers/parameters.go:51-71 | a key without the reserved prefix never causes an error |
| VolumeGroupParameters.ReservedAccepted | volume-group-operator/controllers/utils/parameters.go:42-56 | a reserved key is accepted iff it is the secret-name or secret-namespace key with a non-empty value |
| VolumeGroupParameters.SecretKeysFiltered | volume-group-operator/controllers/utils/settings.go:7-11 | the two secret keys carry the reserved prefix, so the filter removes them |
| VolumeGroupParameters.FilteredValidates | volume-group-operator/controllers/utils/parameters.go:27-61 | a filtered map always passes validation |
| FakeStore.Appended | pkg/node/fakeserver/store.go:34-39 | the list grows by one with `res` at its end, the earlier responses and the cursor unchanged |
| FakeStore.LoadStep | pkg/node/fakeserver/store.go:41-50 | an empty list gives nothing and is untouched; otherwise the response at `index mod size` comes back and the cursor becomes that position plus one; the list never changes |
| FakeStore.Cleared | pkg/node/fakeserver/store.go:52-54 | the list is emptied and the cursor kept |
| FakeStore.Responses.Store | pkg/node/fakeserver/store.go:34-39 | the object's state becomes `Appended(old state, res)` |
| FakeStore.Responses.Load | pkg/node/fakeserver/store.go:41-50 | the new state and the result are `LoadStep(old state)` |
| FakeStore.Responses.Clear | pkg/node/fakeserver/store.go:52-54 | the object's state becomes `Cleared(old state)` |
| FakeStore.LoadsCycle | pkg/node/fakeserver/store.go:46-49 | the j-th of successive loads returns the response j places after the cursor, wrapping round: a round-robin |
| FakeStore.EmptyLoadKeepsIndex | pkg/node/fakeserver/store.go:42-45 | loading from an empty list returns nothing and leaves the cursor as it was |
| FakeStore.MapStore | pkg/node/fakeserver/store.go:60-73 | the request's list gets `res` appended, a new request starts a list of its own with cursor 0, other requests are untouched |
| FakeStore.MapLoad | pkg/node/fakeserver/store.go:75-87 | an unknown request gives nothing and changes nothing; a known one is a load step on its own list |
| FakeStore.Mapping.constructor | pkg/node/fakeserver/store.go:56-58 | a mapping starts with no request and no two requests share a list |
| FakeStore.Mapping.Store | pkg/node/fakeserver/store.go:60-73 | the requests' lists become `MapStore(old lists, req, res)`, and still no two requests share a list object |
| FakeStore.Mapping.Load | pkg/node/fakeserver/store.go:75-87 | the lists and the result are `MapLoad(old lists, req)`; the request-to-list table itself is unchanged |
| FakeStore.StubStore | pkg/node/fakeserver/store.go:98-107 | the stub's mapping gets the store, a new stub starts an empty mapping, other stubs are untouched |
| FakeStore.StubLoad | pkg/node/fakeserver/store.go:89-96 | an unknown stub gives nothing; other stubs are never touched |
| FakeStore.Registry.StoreResponse | pkg/node/fakeserver/store.go:98-107 | the registry becomes `StubStore(old registry, stub, req, res)` |
| FakeStore.Registry.LoadResponse | pkg/node/fakeserver/store.go:89-96 | the registry and the result are `StubLoad(old registry, stub, req)` |
| FakeStore.Registry.ClearAll | pkg/node/fakeserver/store.go:109-111 | the registry becomes empty |
| FakeStore.UnknownGivesNothing | pkg/node/fakeserver/store.go:75-96 | an unknown stub or request gives nothing and leaves the registry as it was |
| FakeStore.ClearedStaysEmpty | pkg/node/fakeserver/store.go:109-111 | after ClearAll any run of loads gives nothing each time and the registry stays empty |
| FakeStore.LoadIsLocal | pkg/node/fakeserver/store.go:75-87 | a load touches only its own request's list |
| FakeStore.StoreTwiceThenLoad | pkg/node/fakeserver/store_test.go:57-73 | storing res1 then res2 for one request, successive loads give res1, res2, res1 |
| FakeStore.StoreBetweenLoads | pkg/node/fakeserver/store_test.go:76-94 | storing res1, loading it, then storing res2: the next loads give res2, then res1 |
| SvcMediator.UrlShape | pkg/arrayactions/svc.go:133-135 | the URL is `https://<array>` followed by `:7443/rest/<endpoint>` |
| SvcMediator.HeadersFor | pkg/arrayactions/svc.go:137-145 | JSON Content-Type and Accept always; `X-Auth-Token` present iff the token is non-empty, holding the token; no other header |
| SvcMediator.CallOutcomeMeaning | pkg/arrayactions/svc.go:82-106 | "unauthorized" iff there is no client error and the status is 403, and then the error is the failed request; no error iff no client error and a 2xx status |
| SvcMediator.RetryAtMostOnce | pkg/arrayactions/svc.go:61-80 | one to three requests: the call alone unless it was unauthorized, then the token request, then the call repeated once with the new token only if the token was obtained; a failed token request leaves no token |
| SvcMediator.CreateHostBodyShape | pkg/arrayactions/svc.go:42-50 | the body holds `name` and `type=generic` and exactly one of `fcwwpn` (when there are FC ports) or `iscsiname` |
| SvcMediator.Mediator.ClearToken | pkg/arrayactions/svc.go:129-131 | the token becomes empty, nothing is sent |
| SvcMediator.Mediator.SetToken | pkg/arrayactions/svc.go:108-127 | one POST to `auth` with the credentials is sent; the token and error are `TokenOutcome` of its reply: empty token on a client error or non-2xx answer, the decoded token otherwise |
| SvcMediator.Mediator.Call | pkg/arrayactions/svc.go:82-106 | the token is unchanged, the request NewRequest sends is recorded, and (error, authorized) is `CallOutcome` of the response |
| SvcMediator.Mediator.CallAndRetryIfUnauthorized | pkg/arrayactions/svc.go:61-80 | token, requests sent and error are those of `RetryExchange` from the old token |
| SvcMediator.Mediator.CreateHost | pkg/arrayactions/svc.go:36-59 | a retrying POST of `CreateHostBody` to `mkhost` |
| NodeIscsi.ParseLine | pkg/node/iscsi/iscsiadm.go:180-188 | one sendtargets line: a target when it has exactly two fields; stated by ParseTargetLine and MessageLineSkipped |
| NodeIscsi.ExtractTargets | pkg/node/iscsi/iscsiadm.go:176-191 | the targets of a record's lines in order; computed by ExtractIscsiTargets, stated by ParseRender and TargetsFromLines |
| NodeIscsi.PortalsError | pkg/node/iscsi/iscsiadm.go:67-88 | the error of the portal loops; stated by PortalsNoError, PortalsFirstError and PortalsFailed |
| NodeIscsi.TargetsOf | pkg/node/iscsi/iscsiadm.go:178-189 | the parser yields at most one target per line of the record |
| NodeIscsi.ExtractIscsiTargets | pkg/node/iscsi/iscsiadm.go:176-191 | the append loop over the record's lines yields exactly the targets of the lines that split into two fields, in order |
| NodeIscsi.TargetsFromLines | pkg/node/iscsi/iscsiadm.go:179-188 | every extracted target is parsed from some line of the record |
| NodeIscsi.ParseTargetLine | pkg/node/iscsi/iscsiadm.go:175-187 | the `<portal>:<port>,1 <iqn>` line printed for a target parses back to that target |
| NodeIscsi.ParseRender | pkg/node/iscsi/iscsiadm.go:176-191 | a record of such lines joined by newlines is parsable and parses back to the same targets in order |
| NodeIscsi.MessageLineSkipped | pkg/node/iscsi/iscsiadm.go:180-183 | a line that does not split into exactly two fields on a space is parsable and skipped |
| NodeIscsi.DiscoverTestRecord | pkg/node/iscsi/iscsiadm_test.go:9-41 | the record `1.2.3.4:3260,1 iqn.xxx` yields exactly one target, with IQN `iqn.xxx`, portal `1.2.3.4` and port `3260` |
| NodeIscsi.LoginTargetsMeaning | pkg/node/iscsi/iscsiadm.go:118-124 | every discovered target gets one login at `<portal>:<port>`, in order; the error is nil iff every login succeeded, and otherwise is the error of the first login that failed |
| NodeIscsi.LogoutTargetsError | pkg/node/iscsi/iscsiadm.go:132-141 | the logout error is nil iff every logout succeeded, otherwise the first logout's error; a deletion's error is ignored |
| NodeIscsi.LogoutTargetsIssued | pkg/node/iscsi/iscsiadm.go:132-133 | every discovered target gets its logout command |
| NodeIscsi.LogoutTargetsDeletes | pkg/node/iscsi/iscsiadm.go:133-136 | the node record of an IQN is deleted iff a logout of a target with that IQN succeeded |
| NodeIscsi.PortalsNoError | pkg/node/iscsi/iscsiadm.go:72-87 | the portal loop returns nil iff every portal's discover-and-login (or logout) succeeded |
| NodeIscsi.PortalsFirstError | pkg/node/iscsi/iscsiadm.go:77-86 | otherwise it returns the first failing portal's error wrapped with "Failed to login portals " (or logout) and the list of failed portals |
| NodeIscsi.PortalsFailed | pkg/node/iscsi/iscsiadm.go:74-76 | a portal is in the failed list iff its step failed; every portal is tried |
| NodeIscsi.FailedDiscoveryStops | pkg/node/iscsi/iscsiadm.go:113-117 | a failed discovery returns its error and issues no login or logout |
| NodeIscsi.IscsiAdmin.constructor | pkg/node/iscsi/iscsiadm.go:36-38 | a new admin over the given runner has issued no command |
| NodeIscsi.IscsiAdmin.Command | pkg/node/iscsi/iscsiadm.go:40-65 | one invocation is appended to the issued commands; it returns the runner's output and its failure as an error |
| NodeIscsi.IscsiAdmin.Login | pkg/node/iscsi/iscsiadm.go:146-149 | issues `--mode node --targetname <iqn> --portal <portal> --login` and returns its error |
| NodeIscsi.IscsiAdmin.Logout | pkg/node/iscsi/iscsiadm.go:153-156 | issues the same command with `--logout` and returns its error |
| NodeIscsi.IscsiAdmin.DeleteDBEntry | pkg/node/iscsi/iscsiadm.go:169-173 | issues `--mode node --targetname <iqn> -o delete` and returns its error |
| NodeIscsi.IscsiAdmin.Discover | pkg/node/iscsi/iscsiadm.go:160-166 | issues the sendtargets discovery; the runner's error, or the targets parsed from its output |
| NodeIscsi.IscsiAdmin.LoginAll | pkg/node/iscsi/iscsiadm.go:118-124 | the loop's commands and error are those of LoginTargets, whose meaning LoginTargetsMeaning states |
| NodeIscsi.IscsiAdmin.LogoutAll | pkg/node/iscsi/iscsiadm.go:132-141 | the loop's commands and error are those of LogoutTargets, whose meaning LogoutTargetsError and LogoutTargetsDeletes state |
| NodeIscsi.IscsiAdmin.DiscoverAndLogin | pkg/node/iscsi/iscsiadm.go:113-125 | discovery then the login loop, with PortalStep's commands and error |
| NodeIscsi.IscsiAdmin.DiscoverAndLogout | pkg/node/iscsi/iscsiadm.go:127-142 | discovery then the logout loop, with PortalStep's commands and error |
| NodeIscsi.IscsiAdmin.DiscoverAndLoginPortals | pkg/node/iscsi/iscsiadm.go:67-88 | issues every portal's steps in order and returns PortalsError, whose meaning PortalsNoError, PortalsFirstError and PortalsFailed state |
| NodeIscsi.IscsiAdmin.DiscoverAndLogoutPortals | pkg/node/iscsi/iscsiadm.go:90-111 | the same for logout |
| PkgIscsi.IscsiCmd | pkg/iscsi/iscsiadm.go:21-47 | one invocation: exactly that command, the runner's output, nil iff the runner did not fail |
| PkgIscsi.Login | pkg/iscsi/iscsiadm.go:136-139 | issues only the login command; nil iff it succeeded |
| PkgIscsi.Logout | pkg/iscsi/iscsiadm.go:143-146 | issues only the logout command; nil iff it succeeded |
| PkgIscsi.DeleteDBEntry | pkg/iscsi/iscsiadm.go:159-163 | issues only the delete command; nil iff it succeeded |
| PkgIscsi.Discover | pkg/iscsi/iscsiadm.go:150-156 | issues only the discovery; on failure no targets and the runner's error, otherwise the parsed targets |
| PkgIscsi.LoginAll | pkg/iscsi/iscsiadm.go:108-113 | one login per target in order; the error of LoginTargets |
| PkgIscsi.LogoutAll | pkg/iscsi/iscsiadm.go:122-130 | logouts with a deletion after each success; the commands and error of LogoutTargets |
| PkgIscsi.DiscoverAndLogin | pkg/iscsi/iscsiadm.go:103-115 | the same commands and error as the admin object's DiscoverAndLogin |
| PkgIscsi.DiscoverAndLogout | pkg/iscsi/iscsiadm.go:117-132 | the same commands and error as the admin object's DiscoverAndLogout |
| PkgIscsi.DiscoverAndLoginPortals | pkg/iscsi/iscsiadm.go:57-78 | the same commands and error as the admin object's DiscoverAndLoginPortals |
| PkgIscsi.DiscoverAndLogoutPortals | pkg/iscsi/iscsiadm.go:80-101 | the same commands and error as the admin object's DiscoverAndLogoutPortals |
| ScanFilter.DeleteKeysSucceeds | build/ci/code_scanning/code_scan_results/filter_code_scan_results.py:26-29 | deleting distinct keys raises no KeyError iff every key is present, and then removes exactly those keys |
| ScanFilter.DeleteKeysFails | build/ci/code_scanning/code_scan_results/filter_code_scan_results.py:27-32 | a KeyError names the first absent key; the keys before it are already deleted and nothing else is |
| ScanFilter.JsonDict.DeleteEach | build/ci/code_scanning/code_scan_results/filter_code_scan_results.py:28-29 | the `del` loop on the dict in place leaves DeleteKeys's remaining dict and reports the key that raised |
| ScanFilter.DeleteKeysStops | build/ci/code_scanning/code_scan_results/filter_code_scan_results.py:27-30 | once a `del` has raised, the later keys change nothing |
| ScanFilter.StripIssuesSucceeds | build/ci/code_scanning/code_scan_results/filter_code_scan_results.py:37-39 | the inner loop raises nothing iff every Issues element is an object holding "cwe" and "line"; then each element has lost exactly those keys, in place, the array keeping its length and order |
| ScanFilter.StripIssuesFails | build/ci/code_scanning/code_scan_results/filter_code_scan_results.py:36-42 | when it raises, it stopped at the first element that is not such an object: earlier elements are stripped, later ones untouched |
| ScanFilter.StripIssuesStops | build/ci/code_scanning/code_scan_results/filter_code_scan_results.py:36-40 | after the element that raised, the rest of the array is carried over unchanged |
| ScanFilter.StripEach | build/ci/code_scanning/code_scan_results/filter_code_scan_results.py:37-39 | the loop over the Issues elements gives StripIssues's array and error |
| ScanFilter.Report.RemoveInnerFields | build/ci/code_scanning/code_scan_results/filter_code_scan_results.py:35-42 | the report's members afterwards and the error are those of StripInner: KeyError for a missing "Issues", TypeError for an element or value of the wrong kind |
| ScanFilter.Report.FilterGosec | build/ci/code_scanning/code_scan_results/filter_code_scan_results.py:21-23 | the top-level deletions, then the Issues pass, with the outcome GosecOutcome describes |
| ScanFilter.RunFilter | build/ci/code_scanning/code_scan_results/filter_code_scan_results.py:6-18 | the script's exit on a deserialised report is Filter's: written unchanged when falsy, filtered or exited with status 1 otherwise |
| ScanFilter.FalsyWrittenUnchanged | build/ci/code_scanning/code_scan_results/filter_code_scan_results.py:12-18 | an empty or falsy report is written unchanged to `filtered-<target>.json` |
| ScanFilter.TopFieldsDeleted | build/ci/code_scanning/code_scan_results/filter_code_scan_results.py:22 | the top-level deletions succeed iff "Golang errors" and "Stats" are both present, and then remove exactly those two members |
| ScanFilter.InnerFieldsDeleted | build/ci/code_scanning/code_scan_results/filter_code_scan_results.py:23 | an issue holding "cwe" and "line" loses exactly those two members |
| ScanFilter.GosecSucceedsIff | build/ci/code_scanning/code_scan_results/filter_code_scan_results.py:21-42 | the gosec filter succeeds iff the report holds "Golang errors", "Stats" and well-formed "Issues" |
| ScanFilter.GosecResult | build/ci/code_scanning/code_scan_results/filter_code_scan_results.py:21-23 | after success the report has lost "Golang errors" and "Stats", keeps every other member, and each issue has lost exactly "cwe" and "line", in order |
| ScanFilter.FilterWritten | build/ci/code_scanning/code_scan_results/filter_code_scan_results.py:14-18 | a non-empty object report is written iff the filter succeeds, and what is written is the filtered report at `<output_path>/filtered-<target>.json` |
| ScanFilter.FilterMissingTopKey | build/ci/code_scanning/code_scan_results/filter_code_scan_results.py:27-32 | a missing "Golang errors" is reported first, then a missing "Stats", then a missing "Issues" |
| ScanFilter.RefilterFails | build/ci/code_scanning/code_scan_results/filter_code_scan_results.py:21-32 | filtering an already filtered report ends in KeyError on "Golang errors" |
| ScanFilter.OutputIsNotInput | build/ci/code_scanning/code_scan_results/filter_code_scan_results.py:9-17 | the filtered file's path is never the path the report was read from |
| StorageAgent.Beautify | old_pkg/storageagent/client.go:62-71 | the sanitiser; stated by BeautifyIsValid, BeautifyShape, BeautifyKeepsValid and BeautifyIdempotent |
| StorageAgent.TrimSpace | old_pkg/storageagent/client.go:63 | the result is the input with white space removed from both ends only: an infix whose ends are not white space |
| StorageAgent.TrimSpaceAround | old_pkg/storageagent/client_test.go:68-72 | trimming a name surrounded by white space gives the name back |
| StorageAgent.ReplaceInvalid | old_pkg/storageagent/client.go:65-70 | keeps the length; each character outside `[a-zA-Z0-9 \-._]` becomes `_`, every other is kept |
| StorageAgent.BeautifyIsValid | old_pkg/storageagent/client.go:57-71 | the sanitised name obeys the three rules: non-empty, begins with a letter or `_`, only valid characters, no space at the end |
| StorageAgent.BeautifyShape | old_pkg/storageagent/client.go:63-70 | the result is the trimmed name, with `_` in front exactly when it does not begin with a letter or `_`, each character kept or replaced by `_` |
| StorageAgent.BeautifyKeepsValid | old_pkg/storageagent/client_test.go:46-50 | a name that already obeys the rules is returned unchanged |
| StorageAgent.BeautifyIdempotent | old_pkg/storageagent/client.go:62-71 | sanitising twice gives the same name as sanitising once |
| StorageAgent.BeautifyPrefixes | old_pkg/storageagent/client_test.go:58-66 | a valid name beginning with neither a letter nor `_` (such as `-` or `.`) only gets `_` in front |
| StorageAgent.BeautifyAddressExample | old_pkg/storageagent/client_test.go:52-56 | the address `1.2.3.4` becomes `_1.2.3.4` |
| CrCommon.UnofficialRepo | controllers/internal/crutils/default_setter.go:57-65 | a set repository whose registry user is not an official one; stated by UnofficialRepoMeaning |
| CrCommon.ImageName | controllers/internal/hostdefiner/hostdefiner.go:95-100 | `repository:tag`, or the repository alone for an empty tag; stated by ImageNameRoundTrip |
| CrCommon.Filled | controllers/internal/crutils/default_setter.go:92-100 | a nil slice becomes an empty one and a present slice is kept |
| CrCommon.LastIndexOf | controllers/internal/crutils/default_setter.go:59 | the position of the last occurrence of the character, no occurrence after it, or -1 when there is none |
| CrCommon.DirOfImage | controllers/internal/crutils/default_setter.go:59 | the registry user that path.Dir reads from `user/image` is `user` |
| CrCommon.UnofficialRepoMeaning | controllers/internal/crutils/default_setter.go:57-65 | an empty repository is never unofficial, and `user/image` is unofficial iff `user` is not an official registry user |
| CrCommon.BareRepoUnofficial | controllers/internal/crutils/default_setter_test.go:55-78 | a repository without a slash, such as `test`, is unofficial unless "." is official |
| CrCommon.ImageNameRoundTrip | controllers/internal/hostdefiner/hostdefiner.go:95-100 | `repository:tag`, or the bare repository for an empty tag, splits back into the repository and the tag |
| CsiDefaults.IBMBlockCSI.constructor | controllers/internal/crutils/default_setter.go:29 | the resource holds the given spec and defaults |
| CsiDefaults.IBMBlockCSI.SetDefaults | controllers/internal/crutils/default_setter.go:29-37 | the spec and the answer afterwards are SetDefaultsResult's |
| CsiDefaults.IBMBlockCSI.IsAnyUnofficialRepo | controllers/internal/crutils/default_setter.go:39-55 | true iff the controller's, the node's or some sidecar's repository is unofficial |
| CsiDefaults.IBMBlockCSI.IsUnofficialRepo | controllers/internal/crutils/default_setter.go:57-65 | true iff the repository is set and its registry user is not official |
| CsiDefaults.IBMBlockCSI.SetComponentDefaults | controllers/internal/crutils/default_setter.go:67-89 | the controller and node images become the defaults and the answer says whether any image differed |
| CsiDefaults.IBMBlockCSI.SetDefaultForNilSliceFields | controllers/internal/crutils/default_setter.go:91-107 | the spec afterwards is WithSliceDefaults of the spec before |
| CsiDefaults.IBMBlockCSI.SetDefaultSidecars | controllers/internal/crutils/default_setter.go:109-132 | the sidecars are replaced by the defaults exactly when the count differs or some sidecar is unknown to the table or differs from its entry, and the answer says so |
| CsiDefaults.SliceDefaultsMeaning | controllers/internal/crutils/default_setter.go:91-107 | after the filling no list is nil, an empty call-home setting reads "true", an empty memory setting gets the default, set values and images are kept, and filling again changes nothing |
| CsiDefaults.UnofficialBlocks | controllers/internal/crutils/default_setter_test.go:55-78 | an unofficial controller, node or sidecar repository answers false and leaves every image as it was |
| CsiDefaults.DefaultsApplied | controllers/internal/crutils/default_setter_test.go:42-53 | otherwise the controller and node end on the default images, the sidecars on the defaults when they differed, and the answer is true iff some image differed |
| CsiDefaults.TagWithoutRepositoryOverwritten | controllers/internal/crutils/default_setter_test.go:80-99 | a tag set without a repository is overwritten by the default image |
| CsiDefaults.DefaultSidecarsKept | controllers/internal/crutils/default_setter.go:113-125 | the default sidecars are never replaced |
| CsiDefaults.SecondCallNoOp | controllers/internal/crutils/default_setter_test.go:147-160 | a second call changes nothing and answers false |
| CsiDefaults.ChangedIffImagesChanged | controllers/internal/crutils/default_setter.go:26-37 | the answer is true iff the call changed an image, so the resource is written back only then |
| CsiDefaults.DuplicateSidecarsKept | controllers/internal/crutils/default_setter.go:113-122 | a list of the right length that repeats one default sidecar and leaves another out is kept |
| HostDefaults.HostDefiner.constructor | controllers/internal/hostdefiner/default_setter.go:27 | the resource holds the given spec and defaults |
| HostDefaults.HostDefiner.SetDefaults | controllers/internal/hostdefiner/default_setter.go:27-35 | the spec and the answer afterwards are SetDefaultsResult's |
| HostDefaults.HostDefiner.SetDefaultForNilSliceFields | controllers/internal/hostdefiner/default_setter.go:37-44 | the nil image pull secrets and tolerations become empty lists |
| HostDefaults.HostDefiner.IsUnofficialRepo | controllers/internal/hostdefiner/default_setter.go:46-54 | true iff the repository is set and its registry user is not official |
| HostDefaults.HostDefiner.SetImageDefaults | controllers/internal/hostdefiner/default_setter.go:56-68 | the repository and tag become the defaults and the answer says whether either differed |
| HostDefaults.SliceDefaultsMeaning | controllers/internal/hostdefinition/default_setter.go:37-44 | no list is nil afterwards, present lists and the image are kept, and filling again changes nothing |
| HostDefaults.UnofficialBlocks | controllers/internal/hostdefiner/default_setter_test.go:53-71 | an unofficial repository answers false and leaves the repository and tag alone |
| HostDefaults.DefaultsApplied | controllers/internal/hostdefinition/default_setter.go:27-68 | otherwise the repository and tag end at the defaults, and the answer is true iff either differed, that is iff the spec changed |
| HostDefaults.TagOnlyGetsDefaults | controllers/internal/hostdefiner/default_setter_test.go:73-91 | with only a tag set, both the repository and the tag end at the defaults |
| HostDefaults.SecondCallNoOp | controllers/internal/hostdefiner/default_setter_test.go:93-104 | a second call changes nothing and answers false |
| ConfigDefaults.Config.constructor | old_pkg/internal/config/default_setter.go:26 | the resource holds the given spec and default settings |
| ConfigDefaults.Config.SetDefaults | old_pkg/internal/config/default_setter.go:26-46 | the spec and the answer afterwards are SetDefaultsResult's |
| ConfigDefaults.RepositoryRule | old_pkg/internal/config/default_setter.go:29-37 | an empty repository brings the default repository and tag, overwriting a tag of the user's; a set repository keeps its tag |
| ConfigDefaults.PortRule | old_pkg/internal/config/default_setter.go:39-43 | an empty port becomes the default port, a set one is kept, DefineHost is never touched |
| ConfigDefaults.ChangedIffDefaultApplied | old_pkg/internal/config/default_setter_test.go:50-116 | the answer is true iff the repository or the port was empty, which with non-empty defaults is iff the spec changed |
| ConfigDefaults.SecondCallNoOp | old_pkg/internal/config/default_setter_test.go:118-128 | a second call answers false and changes nothing |
| LegacyCsiDefaults.IBMBlockCSI.constructor | pkg/internal/ibmblockcsi/default_setter.go:26 | the resource holds the given spec and default repositories |
| LegacyCsiDefaults.IBMBlockCSI.SetDefaults | pkg/internal/ibmblockcsi/default_setter.go:26-48 | the spec and the answer afterwards are SetDefaultsResult's |
| LegacyCsiDefaults.ComponentRule | pkg/config/settings.go:27-28 | a component with an empty repository gets the default repository and tag "1.0.0"; one with a repository is left as it is |
| LegacyCsiDefaults.ChangedAndSecondCall | pkg/internal/ibmblockcsi/default_setter.go:29-47 | the answer is true iff some repository was empty, which is iff the spec changed, and a second call is a no-op answering false |
| HostDefinerMeta.GetImage | controllers/internal/hostdefiner/hostdefiner.go:95-100 | the host definer's image; stated by ImageMeaning |
| HostDefinerMeta.FillFree | controllers/internal/hostdefiner/hostdefiner.go:58-64 | the loop copies in the resource's entries on keys the fixed map leaves free, for every order of the keys |
| HostDefinerMeta.GetLabels | controllers/internal/hostdefiner/hostdefiner.go:47-67 | the seven fixed labels, then the resource's labels on free keys |
| HostDefinerMeta.GetAnnotations | controllers/internal/hostdefiner/hostdefiner.go:73-93 | the product annotations, the resource's annotations on free keys, then the restart annotation when its key is set and free |
| HostDefinerMeta.GetPodLabels | controllers/internal/hostdefiner/hostdefiner.go:43-45 | the resource's labels merged with the selector labels, which win |
| HostDefinerMeta.FixedWinsMeaning | controllers/internal/hostdefinition/hostdefinition.go:58-64 | the result has the keys of both maps; a fixed key keeps its fixed value and a free key takes the resource's |
| HostDefinerMeta.LabelsKeepFixedKeys | controllers/internal/hostdefiner/hostdefiner.go:48-56 | the seven fixed labels always carry their fixed values, and every label of the resource on another key is kept |
| HostDefinerMeta.AnnotationsMeaning | controllers/internal/hostdefiner/hostdefiner.go:74-90 | the product annotations cannot be overridden; the restart annotation appears when its key is set, with its value unless the resource already holds that key |
| HostDefinerMeta.PodLabelsMeaning | controllers/internal/hostdefinition/hostdefinition.go:43-45 | on the pods the selector labels win, the fixed labels survive elsewhere, and the keys are the union of all three maps |
| HostDefinerMeta.ImageMeaning | controllers/internal/hostdefiner/hostdefiner.go:95-100 | the image is `repository:tag` for a set tag, and splits back into both |
| CsiMeta.ComponentAnnotations | pkg/internal/ibmblockcsi/ibmblockcsi.go:63-67 | the single component key; stated by ComponentAnnotationsMeaning |
| CsiMeta.IBMBlockCSI.GetCSIControllerImage | pkg/internal/ibmblockcsi/ibmblockcsi.go:93-98 | the controller's image; stated by ControllerImageMeaning |
| CsiMeta.IBMBlockCSI.GetCSINodeImage | pkg/internal/ibmblockcsi/ibmblockcsi.go:100-105 | the node's image, the same rule over the node's repository and tag |
| CsiMeta.CopyOver | pkg/internal/ibmblockcsi/ibmblockcsi.go:54-58 | the loop copies every annotation of the resource over the fixed map, for every order of the keys |
| CsiMeta.IBMBlockCSI.constructor | pkg/internal/ibmblockcsi/ibmblockcsi.go:46 | the wrapper holds the given name, labels, annotations and images |
| CsiMeta.IBMBlockCSI.GetAnnotations | pkg/internal/ibmblockcsi/ibmblockcsi.go:46-61 | the four fixed keys overridden by the resource's annotations |
| CsiMeta.IBMBlockCSI.ComponentLabels | pkg/internal/ibmblockcsi/ibmblockcsi.go:78-82 | the component key is written into the resource's own labels, which are returned; nil labels give no result |
| CsiMeta.IBMBlockCSI.GetCSIControllerAnnotations | pkg/internal/ibmblockcsi/ibmblockcsi.go:77-83 | the labels gain `app.kubernetes.io/component: csi-controller` and are returned |
| CsiMeta.IBMBlockCSI.GetCSINodeAnnotations | pkg/internal/ibmblockcsi/ibmblockcsi.go:85-91 | the labels gain `app.kubernetes.io/component: csi-node` and are returned |
| CsiMeta.AnnotationsMeaning | pkg/internal/ibmblockcsi/ibmblockcsi.go:47-58 | the keys are those of both maps; the resource's value wins on a shared key, a fixed value stays elsewhere |
| CsiMeta.ComponentAnnotationsMeaning | pkg/internal/ibmblockcsi/ibmblockcsi.go:63-67 | the component annotations are the single component key with the component's value |
| CsiMeta.ComponentLabelsMeaning | pkg/internal/ibmblockcsi/ibmblockcsi.go:69-91 | the component key wins, every other label is kept, and the controller and node get different component values |
| CsiMeta.ControllerImageMeaning | pkg/internal/ibmblockcsi/ibmblockcsi.go:93-98 | the controller image is `repository:tag` for a set tag, and splits back into both |
| ControllerSyncer.SidecarImage | controllers/syncer/csi_controller.go:396-402 | the listed sidecar's `repository:tag`, else the default image; stated by SidecarLookupMeaning and UnlistedSidecarDefaults |
| ControllerSyncer.EnvFor | controllers/syncer/csi_controller.go:322-360 | getEnvFor; stated by ControllerEnvMeaning and SocketAddressIsMounted |
| ControllerSyncer.VolumeMountsFor | controllers/syncer/csi_controller.go:362-382 | getVolumeMountsFor; stated by SocketAddressIsMounted and ControllerEnvMeaning |
| ControllerSyncer.MaxWorkersCount | controllers/syncer/csi_controller.go:499-503 | getMaxWorkersCount on a given CPU count; stated by MaxWorkersBounds |
| ControllerSyncer.MaxWorkersFlag | controllers/syncer/csi_controller.go:505-508 | `flag=count`; stated by MaxWorkersFlagRoundTrip |
| ControllerSyncer.SyncerFlagsRoundTrip | controllers/syncer/csi_controller.go:510-516 | both the common and the resizer flag split back into their name and the worker count |
| ControllerSyncer.FirstNamed | controllers/syncer/csi_controller.go:490-497 | none iff no sidecar has the name; otherwise the first sidecar with the name |
| ControllerSyncer.GetSidecarByName | controllers/syncer/csi_controller.go:490-497 | the loop returns the first sidecar with the name, or nil |
| ControllerSyncer.GetSidecarImageByName | controllers/syncer/csi_controller.go:396-402 | `repository:tag` of the first listed sidecar with the name, otherwise the driver's default image |
| ControllerSyncer.SidecarPullPolicy | controllers/syncer/csi_controller.go:432-438 | the pull policy is never empty |
| ControllerSyncer.GetSidecarPullPolicy | controllers/syncer/csi_controller.go:432-438 | the listed sidecar's own policy when set, otherwise IfNotPresent |
| ControllerSyncer.SidecarLookupMeaning | controllers/syncer/csi_controller.go:392-438 | the first listed sidecar with the name decides the image and, when it has one, the pull policy |
| ControllerSyncer.UnlistedSidecarDefaults | controllers/syncer/csi_controller.go:396-437 | an unlisted sidecar gets the driver's default image and IfNotPresent |
| ControllerSyncer.HealthPort | controllers/syncer/csi_controller.go:144-147 | the resource's health port, or 9808 when it is unset; never 0 |
| ControllerSyncer.SocketAddressIsMounted | controllers/syncer/csi_controller.go:350-371 | each of the six socket clients is told the socket address and mounts the socket directory the address lies under |
| ControllerSyncer.ControllerEnvMeaning | controllers/syncer/csi_controller.go:322-360 | the controller gets five variables, with the call-home settings as given and an SSH port that reads back as the number; a container without a mount gets no environment |
| ControllerSyncer.MaxWorkersBounds | controllers/syncer/csi_controller.go:499-503 | the worker count is max(min(cpus, 32) div 2, 2), so it lies between 2 and 16 |
| ControllerSyncer.MaxWorkersFlagRoundTrip | controllers/syncer/csi_controller.go:505-508 | the flag splits at its one `=` into the flag name and a number that reads back as the worker count |
| VolumeGroupPVCs.FirstMatch | volume-group-operator/controllers/utils/volumegroup.go:85-86 | the index of the first entry with the claim's name and namespace, or the length when none matches |
| VolumeGroupPVCs.IsPVCPartOfVG | volume-group-operator/controllers/utils/volumegroup.go:59-66 | true iff some entry has the claim's name and namespace |
| VolumeGroupPVCs.RemoveByIndex | volume-group-operator/controllers/utils/volumegroup.go:87 | the list one shorter, with the entries before the index kept and those after it shifted down by one |
| VolumeGroupPVCs.RemoveFromPVCList | volume-group-operator/controllers/utils/volumegroup.go:83-92 | with no match the list is unchanged; otherwise the first matching entry is removed |
| VolumeGroupPVCs.RemovedOnce | volume-group-operator/controllers/utils/volumegroup.go:85-88 | exactly one entry is taken out, a matching one, and putting it back gives the list again |
| VolumeGroupPVCs.RemovedNotPart | volume-group-operator/controllers/utils/volumegroup.go:83-92 | a claim listed at most once is not part of the group after its removal |
| VolumeGroupPVCs.PartIffRemoved | volume-group-operator/controllers/utils/volumegroup.go:59-92 | the claim is part of the group iff the removal shortens the list |
| VolumeGroupPVCs.VolumeGroupStatus.constructor | volume-group-operator/controllers/utils/volumegroup.go:68 | the status holds the given claim list |
| VolumeGroupPVCs.VolumeGroupStatus.RemovePVCFromVG | volume-group-operator/controllers/utils/volumegroup.go:68-81 | the status's list becomes the reduced list and the update's outcome is returned |

## Left out

- **Running iscsiadm.** The process is a `Runner` function from the argument list to the output and failure message. The log lines and the exact error text built from stderr and the exit status are not modelled.
- **Unparsable sendtargets records.** A line of two fields whose address has no `:` makes extractIscsiTargets index past a slice, which is a Go panic. `Discoverable` and `RecordParsable` exclude such records as preconditions.
- **The Jenkins REST call.** The job names are the input; the HTTP fetch and the credentials are left out.
- **Python number and case handling.** `int()` is modelled with its white space, sign and underscore rules, but on ASCII digits only; digits of other scripts, which `int()` also reads, make the model raise where the script goes on. `lower()` is modelled on ASCII letters only.
- JenkinsJobs.Minor: a minor written in digits of another script (say Arabic-Indic) is a raise in the model, while the script reads it as a number.
- **Scan-report file I/O.** The deserialised report is an input and the written file is the `Written` exit; json_utils is not part of this model.
- **JSON representation.** JSON objects are maps, so member order is lost. Numbers are integers.
- **`path.join`.** It is modelled for the two components the script passes.
- **Concurrency in the fake store.** The store's `sync.Map` is a sequential map, and the goroutine tests are left out.
- **Fake-store keys and aliasing.** Requests are keyed by their `String()` text, given as a string. The response lists are values held in the registry, so pointer sharing between a loaded list and the store is not modelled.
- **The REST round trip.** Request building, TLS, sending and JSON encoding and decoding form the `Transport` parameter. A nil request body is an empty map.
- **The status update in RemovePVCFromVG.** The Kubernetes client call is an outcome parameter, and the log messages are left out.
- **removeByIndexFromPersistentVolumeClaimList.** It is not part of this model. `RemoveByIndex` states the removal its name and call site describe.
- **Defaulting inputs read from files.** The default resources (DefaultIBMBlockCSICr, DefaultHostDefinerCr), the official registry users, NodeAgentRepository/Tag/Port and the default controller and node repositories are read from files or settings that are not part of this model. They are parameters or object constants.
- **crutils MemoryRequirements.** controllers/internal/crutils/default_setter.go:101 compares a string field with nil, which Go rejects. It is modelled as the empty-string test the following line implies.
- **`path.Dir`.** Only the last-slash rule is modelled; the `Clean` step that resolves `.`, `..` and repeated slashes is not.
- **Sidecar slice aliasing.** setDefaultSidecars assigns the default resource's slice to the spec, so the two share storage. The model copies the value.
- **Values from helpers that are not part of this model.** GetSelectorLabels, GetDefaultSidecarImageByName, the driver version and the CPU count (`runtime.NumCPU`) are parameters.
- **The resource's GetLabels.** It is not part of this model. `CsiMeta.IBMBlockCSI.ComponentLabels` reads the label map directly. A nil map, whose assignment panics in Go, gives no result.
- **SvcSshPort's width.** Its declaration is not part of this model. It is a natural number, not the 16-bit unsigned value a comment there mentions.
- **The worker count.** It is computed on `real`, which is exact for these small values, where the source uses float64.
- **Controller-runtime predicates.** predicate.Funcs and ResourceVersionChangedPredicate are library code, written out in `EventFilters` as those types document them.
- **Reconcilers and manifests.** Reconcilers, controller wiring and manifest builders change nothing that is proved here.

## Findings

| source | as written | input that shows it | evidently intended | confidence | as-written member | corrected member |
|---|---|---|---|---|---|---|
| publish/get_latest_version_of_our_test_jenkins_jobs.py:19-23 | the major counter advances whenever the major is at least the stored one, but the job is replaced only when the minor is also at least the stored minor, and the minor is never reset | k8s names `<p>3.5` then `<p>4.2`: the bucket keeps `<p>3.5` with major 4 and minor 5 | keep the job with the lexicographically greatest (major, minor), so `<p>4.2` is selected | not executed | JenkinsJobs.QuirkKeepsOlderJob | JenkinsJobs.LexTrackedIsMax |
