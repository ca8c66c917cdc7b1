# kapprover decision core in Dafny

This project models two pieces of the kapprover certificate-signing-request
(CSR) approval controller and proves properties of them.

- **Inspector registry and policy list** (`inspectors/inspectors.go`).
  - The registry is a package-level map from a lower-cased name to an
    inspector. `Register` stores under the lower-cased name. It panics on an
    empty name, a nil inspector or a name already taken. `Get` is an exact
    lookup. `List` returns the names. `Unregister` deletes one key.
  - A policy is a list of named inspectors. It is filled by repeated
    `Set(token)` calls. Each call parses one `name` or `name=config` token,
    splitting at the first `=`. It looks the name up, configures the
    inspector when the configuration is non-empty, and appends one element.
    `String` renders the list back as comma-separated tokens.
- **The "always" approver** (`approvers/always/always.go`). It approves every
  CSR that has no condition yet, whose submitter is exactly
  `kubelet-bootstrap` and whose groups include exactly
  `system:kubelet-bootstrap`. It appends one fixed `Approved` condition and
  sends the request to the store. When the store answers with an error
  containing `the object has been modified`, it re-fetches the request by
  name and starts over. Any other error is returned.

Files:

- `wrappers.dfy`: `Option` and `Result`.
- `strings.dfy`: the Go `strings` functions the core uses, on `seq<char>`.
  These are an ASCII `ToLower`, `SplitFirst` (= `SplitN(s, "=", 2)`),
  `Contains` and `Join`.
- `inspectors.dfy`: the registry (class `Registry`, a `map` field), the policy
  (class `Policy`, a `seq` field), the specification functions `Resolve`
  (what one `Set` resolves to), `Token` and `Render`, and lemmas about them.
- `always.dfy`: the request (class `Request`, whose `conditions` field
  `Approve` appends to in place), a scripted store client (class `Client`),
  the eligibility predicate, the specification function `Run` of the whole
  retry protocol, the method `Approve` proved equal to `Run`, and lemmas
  about `Run`.

The store client is modelled as a script. `Client` holds the answers still to
give to `UpdateApproval` and to `Get`, and logs every object submitted and
every name fetched. An answer given after the script is used up is the error
`script exhausted`, which is not a conflict. This is how the unbounded `for {}`
loop is shown to terminate: each retry uses one scripted update answer, and
the loop carries `decreases |client.updates|`.

## Model

| member | source | states |
|---|---|---|
| `Inspectors.Registry.Register` | inspectors/inspectors.go:82-102 | The checks run in the source's order: an empty name panics, then a nil inspector panics, then a lower-cased name already present panics. A panic leaves the map unchanged. Otherwise the map gains exactly `ToLower(name) ↦ a` and nothing else changes. The invariant (keys non-empty and lower-case, values non-nil) is kept. |
| `Inspectors.Registry.List` | inspectors/inspectors.go:105-115 | The result holds every registered key exactly once, no duplicates, and its length is the map's size. Order is left open. |
| `Inspectors.Registry.Unregister` | inspectors/inspectors.go:118-122 | The map loses exactly the key `name`, as given and not lower-cased. An absent key leaves it unchanged, so a second call changes nothing. |
| `Inspectors.Registry.Get` | inspectors/inspectors.go:125-131 | `found` holds iff `name` is a key, and then the result is the stored inspector, else nil. The registry is not modified. A name with an upper-case letter is never found, because `Get` does not lower-case. |
| `Inspectors.Policy.Set` | inspectors/inspectors.go:51-76 | On success exactly one element `Resolve(...)` is appended at the end and earlier elements stay. On an unknown name or a `Configure` error, that error is returned and the list is unchanged. |
| `Inspectors.Policy.String` | inspectors/inspectors.go:36-49 | The buffer loop yields `Render(items)`. |
| `Inspectors.ResolveSplitsAtFirstEquals` | inspectors/inspectors.go:52-73 | A resolved token's name is the text before its first `=` and is registered. Its configuration is the whole rest, which may contain `=`, or `""` when there is no `=`. With an empty configuration the registered instance is stored and `Configure` is not used. Otherwise `Configure`'s result is stored. |
| `Inspectors.ResolveFails` | inspectors/inspectors.go:54-71 | For a token `name=config`: resolution fails iff the name is unregistered, or the configuration is non-empty and `Configure` fails. An unregistered name yields `NotFound` with that name and the registered names. |
| `Inspectors.ResolvePlainName` | inspectors/inspectors.go:51-73 | For a token with no `=`: resolution fails iff the token is not a registered name, with `NotFound` of that name and the registered names. Otherwise the element is the registered instance with an empty configuration. Together with `ResolveFails` this covers every token. |
| `Inspectors.TokenOfResolved` | inspectors/inspectors.go:36-73 | A resolved element renders back to its token. The one exception is a token ending in a bare `=`, which renders without it. |
| `Inspectors.ResolveOfToken` | inspectors/inspectors.go:36-73 | Resolving an element's rendering again gives the same element (name, configuration and instance). |
| `Inspectors.RenderIsJoinOfTokens` | inspectors/inspectors.go:36-49 | Rendering a list is joining its elements' tokens with `,`, and an empty list renders as `""`. |
| `Inspectors.RenderOfResolved` | inspectors/inspectors.go:36-76 | A list built by successful `Set`s of tokens that have no `=` or a non-empty configuration renders as those tokens joined by `,`. |
| `Strings.ToLower` | inspectors/inspectors.go:95 | The result has the same length and no upper-case ASCII letter. Each character is its own lower-case form: `'A'`..`'Z'` become `'a'`..`'z'` and every other character is kept. |
| `Strings.ToLowerSameIffEqualFold` | inspectors/inspectors.go:94-97 | Two names lower-case to the same key iff they differ at most in the case of ASCII letters. |
| `Inspectors.RegisteredInAnyCasing` | inspectors/inspectors.go:94-101 | After a name is stored under its lower-cased key, a later name hits the duplicate check iff it was already taken or equals the first up to ASCII case. So registering `"A"` and then `"a"` panics. |
| `Strings.ToLowerOfLower` | inspectors/inspectors.go:94-95 | Lower-casing a lower-case name changes nothing, so `ToLower` is idempotent. |
| `Strings.SplitFirst` | inspectors/inspectors.go:52-65 | There is one part (the whole string) iff `=` does not occur. Otherwise there are two parts: an `=`-free head and the tail, which rejoined with `=` give the input. |
| `Strings.SplitFirstOfJoined` | inspectors/inspectors.go:52-65 | Any `=`-free head, `=` and tail splits back into exactly that head and tail. |
| `Strings.Contains` | approvers/always/always.go:68 | The result is true iff the pattern occurs at some index of the text. |
| `Always.ShouldApprove` | approvers/always/always.go:42-61 | The checks return true iff there is no condition, the username is exactly `kubelet-bootstrap` and some group is exactly `system:kubelet-bootstrap`. |
| `Always.Approve` | approvers/always/always.go:28-83 | The error returned, the objects submitted, the names fetched and the store answers used are exactly those of `Run` on the initial request. The caller's request ends with the one appended approval if it was eligible, and is untouched otherwise. |
| `Always.RunWithoutRetry` | approvers/always/always.go:42-81 | An ineligible request gives no error and no store call. An eligible one is submitted once with the approval appended. Then success, or an update error that is not a conflict, is returned without a re-fetch. |
| `Always.RunAfterConflict` | approvers/always/always.go:68-75 | After a conflict, the request is re-fetched by its name. A fetch error is returned. A fetched object is checked again from the top. |
| `Always.RunSubmitsOnlyApprovals` | approvers/always/always.go:29-67 | Every submitted object has exactly the one `AutoApproved` `Approved` condition, so nothing is denied and one condition is appended per attempt. Each was submitted by the bootstrap user in the bootstrap group. |
| `Always.RunStoreCalls` | approvers/always/always.go:64-81 | Nothing is submitted iff the request is ineligible. There are at most as many re-fetches as submissions, and at most one fewer. Each re-fetch uses the name of the object just submitted. An error after the last update is not a conflict. A success after the last update means that update was answered with success. |
| `Always.RunRetriesOnlyOnConflict` | approvers/always/always.go:67-78 | Every re-fetch was preceded by an update answered with a conflict. The first as many update answers as there were re-fetches are all conflicts. |
| `Always.RunConsumesScripts` | approvers/always/always.go:67-75 | Each update and each fetch uses up exactly one scripted answer of the store. |
| `Always.ApproveAgainIsNoop` | approvers/always/always.go:42-44 | After a successful run, approving the last submitted object again sends nothing and returns no error, because it already carries a condition. This object is what the store holds when the run ended on a successful update. |
| `Always.RetryAfterConflictSucceeds` | approvers/always/always.go:67-81 | A conflict, a re-fetch and a successful update give exactly two submissions, one re-fetch and no error. |
| `Always.ConflictWithConcurrentDecision` | approvers/always/always.go:42-75 | When the re-fetched object already has a condition, the result is no error and no second update. |
| `Always.OtherUpdateErrorIsReturned` | approvers/always/always.go:67-78 | An update error that is not a conflict is returned at once, with no re-fetch. |
| `Always.FetchErrorIsReturned` | approvers/always/always.go:71-74 | A failed re-fetch returns its error at once. |
| `Always.Client.UpdateApproval` | approvers/always/always.go:67 | The store logs the submitted state and answers with the next scripted answer. |
| `Always.Client.Get` | approvers/always/always.go:71 | The store logs the fetched name. It answers with a fresh request holding the next scripted object, or with the scripted error and no object. |

Notes on the source's behaviour that the model keeps:

- `Set` parses one token and does not split on `,`
  (inspectors/inspectors.go:51-76). A comma-separated list comes from
  repeated calls.
- A failing `Set` returns before appending, so the list keeps whatever earlier
  calls appended (inspectors/inspectors.go:54-73). `Policy.Set` states exactly
  that.
- The "already registered" check compares lower-cased names
  (inspectors/inspectors.go:95-97), so `"A"` and then `"a"` panics.

## Left out

- The `sync.RWMutex` locking of the registry. The registry is single-threaded
  state here.
- The Kubernetes client and API types. They are replaced by the scripted
  `Client` and by the value `Csr`, which holds only the name, username,
  groups and conditions.
- Always.Approve: the source loops without bound while the store keeps
  answering with conflicts. The model's store script is finite. Once it is
  used up, the client answers with a non-conflict error. So a run that never
  ends is not represented.
- The registration of the approver in `init` (approvers/always/always.go:17-19).
  The `approvers` package is not part of this model.
- What concrete inspectors do. `Configure` is an uninterpreted function
  parameter, and `Inspect` is not modelled.
- Strings.ToLower: only ASCII letters are lower-cased, not full Unicode case
  mapping.
- Inspectors.Policy.Set: the not-found error carries the name and the set of
  registered names. Its `%q` text and the order of the listed names are not
  modelled.
- Go's map iteration order in `List`. The order of the result is left open.
- Detection of a conflict matches the error text, as in the source. There is
  no structured error kind.
