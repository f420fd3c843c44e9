# Dockercfg secret controller

A Dafny model of the OpenShift dockercfg controller
(`pkg/serviceaccounts/controllers/create_dockercfg_secrets.go`). Whenever a
service account is added or updated, the controller makes sure the account
has a generated dockercfg secret referenced both as a mountable secret and
as an image pull secret. A generated secret is one whose name starts with
the account's dockercfg name prefix. Depending on what the account already
references, the controller does one of three things:

- it does nothing, when both lists already hold a generated name;
- it links the existing generated name into the list that lacks one;
- it creates a new bundle and links it. First it re-reads the account and
  checks that the snapshot is current. Then it creates a service-account
  token secret and waits for the token controller to fill it. Then it
  creates a dockercfg secret (the "bundle") holding credentials for the
  configured registry URL.

The linker re-reads the account and refuses with a Conflict when the
decision was taken on stale lists. Otherwise it appends the name to each
list that lacks it and writes the account back. The write is guarded by
the resource version it read.

Modules:

- `Api` (`api.dfy`): service accounts, secrets, errors and the Kubernetes keys the controller uses.
- `Order` (`order.dfy`): the sorted order of `sets.String.List()`. `First` is its first element.
- `Classifier` (`classifier.dfy`): the generated names of an account.
- `Remote` (`remote.dfy`): the API server, and the other actors that change it concurrently.
  - The server is a value, `World`: the stored objects, the script of the other actors, and the log of requests served.
  - Before serving its i-th request, the server lets the other actors take the i-th step of the script. A step may refuse the request, write the account (which bumps its resource version), fill a token secret, or delete a secret.
  - Concurrent updates and the asynchronous token controller both come from this script.
- `Reconcile` (`reconcile.dfy`): each step of the controller as a function from the world it starts in to the world it leaves and its answer.
- `Controller` (`controller.dfy`): the controller class. It holds the mutable `dockerURL` field and the two name-prefix functions. `SetDockerURL` replaces the URL. Every other method takes the world as input, returns the world it leaves, and is proved to behave exactly as the matching `Reconcile` function says.
- `Properties` (`properties.dfy`): the controller's promises, as lemmas about the `Reconcile` functions.

## Model

| member | source | states |
|---|---|---|
| Classifier.GetGeneratedDockercfgSecretNames | pkg/serviceaccounts/controllers/create_dockercfg_secrets.go:320-337 | a name is in the mountable set iff it occurs in the account's secrets and starts with the prefix; the same for image pull secrets and the pull set; duplicates collapse |
| Order.First | pkg/serviceaccounts/controllers/create_dockercfg_secrets.go:136-141 | `List()[0]` of a non-empty set is its least name in sorted (lexicographic) order; that least name is unique |
| Controller.DockercfgController.constructor | pkg/serviceaccounts/controllers/create_dockercfg_secrets.go:40-65 | the controller starts with the default registry URL and keeps the two name-prefix functions it is given |
| Controller.DockercfgController.SetDockerURL | pkg/serviceaccounts/controllers/create_dockercfg_secrets.go:95-100 | the endpoint used by later bundles is replaced by the new one |
| Controller.DockercfgController.ServiceAccountAdded | pkg/serviceaccounts/controllers/create_dockercfg_secrets.go:103-109 | an Added notification runs the reconciler on the account and discards its error |
| Controller.DockercfgController.ServiceAccountUpdated | pkg/serviceaccounts/controllers/create_dockercfg_secrets.go:112-118 | an Updated notification runs the reconciler on the new account and discards its error |
| Controller.DockercfgController.CreateDockercfgSecretIfNeeded | pkg/serviceaccounts/controllers/create_dockercfg_secrets.go:121-182 | the world left behind and the answer are exactly those of `ReconcileAccount` for the controller's prefixes and current URL |
| Controller.DockercfgController.CreateDockerPullSecretReference | pkg/serviceaccounts/controllers/create_dockercfg_secrets.go:185-217 | the world left behind and the answer are exactly those of `LinkBundle` |
| Controller.DockercfgController.CreateTokenSecret | pkg/serviceaccounts/controllers/create_dockercfg_secrets.go:225-266 | the world left behind and the answer are exactly those of `MaterializeToken` for the generated token name |
| Controller.DockercfgController.AwaitToken | pkg/serviceaccounts/controllers/create_dockercfg_secrets.go:246-258 | the wait loop answers exactly as `Poll` from attempt 0 |
| Controller.DockercfgController.CreateDockerPullSecret | pkg/serviceaccounts/controllers/create_dockercfg_secrets.go:269-310 | the world left behind and the answer are exactly those of `BuildBundle` for the generated names and the URL read once |
| Reconcile.Poll | pkg/serviceaccounts/controllers/create_dockercfg_secrets.go:246-258 | the poll sends at most TokenSecretWaitTimes + 1 - attempt requests; a filled answer carries a non-empty token; a failed one carries the error of a read (server error or not found) |
| Properties.LinkSendsAtMostOneUpdate | pkg/serviceaccounts/controllers/create_dockercfg_secrets.go:186-216 | the linker sends one read of the account and at most one update, and nothing else |
| Properties.LinkRefusesStaleDecision | pkg/serviceaccounts/controllers/create_dockercfg_secrets.go:191-197 | the linker answers a stale-decision Conflict iff the live account's generated names differ from the snapshot's; it then sends no update, and the store holds only what the other actors did |
| Properties.LinkAppendsAtMostOneEntry | pkg/serviceaccounts/controllers/create_dockercfg_secrets.go:199-216 | on success the stored account references the name in both lists; each list is the list read when the name was already among its generated names, and otherwise that list with the name appended at the end, so no duplicate is added; no update is sent iff the name was already among the generated names of both |
| Properties.NoLostUpdate | pkg/serviceaccounts/controllers/create_dockercfg_secrets.go:210-214 | an account written by another actor between the linker's read and its update is not overwritten: the update is refused as a version Conflict |
| Properties.PollOnlyReadsTheToken | pkg/serviceaccounts/controllers/create_dockercfg_secrets.go:246-258 | a poll that sent n requests leaves the same world as n plain reads of the token secret: it sends nothing else |
| Properties.PollReturnsFirstFilledToken | pkg/serviceaccounts/controllers/create_dockercfg_secrets.go:247-254 | a filled answer is the secret returned by the poll's last read, and every earlier read found the token unfilled |
| Properties.PollAbortsOnFirstFailedRead | pkg/serviceaccounts/controllers/create_dockercfg_secrets.go:247-250 | a failed answer is the error of the poll's last read, and every earlier read found the token unfilled |
| Properties.PollGivesUpAfterEveryRead | pkg/serviceaccounts/controllers/create_dockercfg_secrets.go:246-258 | the poll gives up only after exactly TokenSecretWaitTimes + 1 - attempt reads, none of which found the token filled |
| Properties.TokenTimeoutCleansUp | pkg/serviceaccounts/controllers/create_dockercfg_secrets.go:239-265 | "token never generated" for a name is answered only after the token was created and 101 reads never saw it filled; the last request then deletes that token, and it is gone unless that delete was refused |
| Properties.BundleContents | pkg/serviceaccounts/controllers/create_dockercfg_secrets.go:275-299 | the bundle has credentials for exactly the configured URL: user "serviceaccount", the token as password, email "serviceaccount@example.org"; its annotations name the account, its UID and the token secret |
| Properties.BundleHasFilledPassword | pkg/serviceaccounts/controllers/create_dockercfg_secrets.go:269-310 | a created bundle is built from a token that was observed filled, so its password is non-empty, and it is stored |
| Properties.ConvergedAccountIsLeftAlone | pkg/serviceaccounts/controllers/create_dockercfg_secrets.go:129-132 | when both lists hold a generated name, the reconciler succeeds and sends no request |
| Properties.PartialStateIsRepaired | pkg/serviceaccounts/controllers/create_dockercfg_secrets.go:134-149 | when exactly one list holds generated names, the reconciler links the least of them; it creates no secret; a Conflict counts as success; on success both lists of the stored account hold that name |
| Properties.CreatesOnlyFromFreshSnapshot | pkg/serviceaccounts/controllers/create_dockercfg_secrets.go:153-165 | a secret is created only when both lists lack generated names and the re-read account still has the snapshot's resource version |
| Properties.StaleSnapshotCreatesNothing | pkg/serviceaccounts/controllers/create_dockercfg_secrets.go:155-163 | when the re-read account has another version than the snapshot, the reconciler succeeds after that single read |
| Properties.ReconcileNeverSurfacesConflict | pkg/serviceaccounts/controllers/create_dockercfg_secrets.go:143-149 | the reconciler never answers with a Conflict, in the repair path (lines 143-149) and the creation path (lines 170-178) alike |
| Properties.CreationPassesErrorsOn | pkg/serviceaccounts/controllers/create_dockercfg_secrets.go:155-181 | on the creation path a failure is exactly the error of the re-read, of building the bundle, or of linking it |
| Properties.CreationConverges | pkg/serviceaccounts/controllers/create_dockercfg_secrets.go:165-181 | after a successful creation and link, the new bundle is the only generated name in both lists of the stored account |
| Properties.ReconcileIsIdempotent | pkg/serviceaccounts/controllers/create_dockercfg_secrets.go:129-132 | reconciling the account a successful creation left behind sends no request and succeeds: there is no second bundle |
| Properties.OrphanBundleIsDeleted | pkg/serviceaccounts/controllers/create_dockercfg_secrets.go:170-178 | a bundle whose link fails with a Conflict is deleted by the last request, and is gone unless that delete was refused; the reconciliation succeeds |

## Left out

- Informer and watch setup, `Run`, `Stop` and the stop channel (lines 40-93). These deliver events and start goroutines. The constructor keeps the default registry URL and the two name-prefix functions (see below).
- The error sink of the two notification handlers (`utilruntime.HandleError`). The handlers discard the reconciler's error. The same holds for the errors of the two cleanup deletes that are only reported.
- `time.Sleep` and `wait.Jitter` between polls (lines 220, 256). Only the attempt count is kept.
- The `dockerURLLock` mutex. `dockerURL` is a plain field, read once for each bundle build.
- The byte output of `json.Marshal`. The credential payload is the map from URL to entry that the JSON serialises. The marshal error path is left out because it cannot happen for this type.
- `secret.Strategy.GenerateName` and the `osautil` name prefixes: their bodies are not part of this model.
  - A generated name is the prefix followed by a suffix that the caller supplies (`Suffixes`).
  - The prefixes are functions of the account's identity, fixed when the controller is built.
- `getSecretReferences` (lines 312-318). The algorithm does not use it.
- Logging.
- The client object shared with other code. The API server is a value that each method receives and returns. Concurrency with other actors is a fixed script of their steps, taken one before each request. The model therefore does not capture:
  - requests that the server serves in parallel;
  - other actors that react to what the controller did.
- Resource versions are natural numbers that the server increments. In Kubernetes they are opaque strings; the controller only compares them for equality.
- The linker compares the sorted lists of the two classifications with `reflect.DeepEqual`. The model compares the two sets. The sorted list of a set determines the set, so the two tests agree.
- A token slot holding a credential map rather than bytes reads as empty. Nobody writes one.
- Properties.LinkRefusesStaleDecision: the Conflict carries the bundle name and both classifications as data, rather than the formatted message text.
- Properties.TokenTimeoutCleansUp: the error is `TokenNeverGenerated(name)` rather than its message text "token never generated for <name>".
