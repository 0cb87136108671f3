# Policy evaluation core of grafeasprototype

This project models the policy-evaluation logic of the grafeasprototype cluster checker in Dafny and proves properties of it. The checker lists ImageSecurityPolicy objects. For each one it collects the container images of the pods in the policy's namespace and asks the Container Analysis occurrence service for each image's vulnerability occurrences. It keeps the occurrences whose severity meets the policy's `maximumSeverity`. Two drafts of this loop are modelled:

- `pkg/executor/execute.go` (`Execute`) is tolerant. It skips an image whose occurrences cannot be retrieved, and it annotates a pod (`addAnnotation`) for every image that has a violation.
- `main.go` (`execute`) is strict. The first failure ends the run. It only prints the vulnerable images and never annotates anything.

Modules:

- `Severity` (severity.dfy) models `sevGE` and the fixed scale LOW < MEDIUM < HIGH < CRITICAL.
- `Occurrences` (occurrences.dfy) models `filterOccurrences`. The copies of `sevGE` and `filterOccurrences` at main.go:165-190 are textually identical to pkg/executor/execute.go:187-212, so these two modules model both files.
- `ImageRef` (imageref.dfy) models the validation prefix of `getOccurrences` that both drafts share: `strings.TrimPrefix`, `strings.Split` on `/`, the three-segment check and the project.
- `Cluster` (cluster.dfy) holds policies and pods, plus the two ways the drafts collect images: a pod-name map, and a flat list.
- `Executor` and `ExecutorProperties` (executor.dfy) model the tolerant draft. `MainProgram` and `MainProperties` (mainprog.dfy) model the strict one. `DraftComparison` (compare.dfy) compares the two drafts' queries.

Every collaborator that is not core logic is an input:

- the result of listing the policies (`Result<seq<ImageSecurityPolicy>>`);
- a pod listing per namespace (`string -> Result<seq<Pod>>`);
- the occurrence service (`OccurrencesRequest -> Result<seq<Occurrence>>`), which receives the path and filter that `getOccurrences` builds, so a malformed image never reaches it. The loops and their specifications take `getOccurrences` as a function of the image (`retrieve`). In a run that function is `OccurrencesOf(fetch)`, the validation of `ImageRef` followed by the service;
- for the tolerant draft, the outcome of `addAnnotation` (`(pod, namespace, text) -> Option<error>`). Each call is recorded in the returned trace.

Go's map iteration order is unspecified. `Execute` therefore picks the next pod with `:|` from the keys not yet visited, and its contract speaks of the set of calls.

Behaviour of the code that a reader may not expect:

- An unknown but non-empty severity value meets every level, because the scan reaches the threshold before it could meet the value. Only the empty value never counts.
- `sevGE(x, x)` holds only when `x` is one of the four levels.
- `filterOccurrences` never reads `Whitelist` or `OnlyFixesAvailable`.
- In the tolerant draft, a pod-listing error for one namespace ends the whole run. It does not skip just that policy.
- A run yields only its error and its effects. The tolerant draft returns its error and makes its annotation calls. The strict draft returns its error and prints the vulnerable images.

## Model

| member | source | states |
|---|---|---|
| `Severity.Scan` | pkg/executor/execute.go:193-201 | No contract of its own; the early-return scan is characterised by `ScanIsIndexComparison`. |
| `Severity.SevGE` | pkg/executor/execute.go:189-202 | No contract of its own; `sevGE` is characterised by `SevGEMatchesRank` and the lemmas below it. |
| `Severity.ScanIsIndexComparison` | pkg/executor/execute.go:193-201 | The early-return scan answers true exactly when the threshold occurs in the order, no later than the first occurrence of the value. |
| `Severity.SevGEMatchesRank` | pkg/executor/execute.go:187-202 | `sevGE` equals a rank-table comparison for every pair of strings: the value is non-empty, the threshold is a level, and the threshold's rank is at most the value's rank (an unknown value ranks above all levels). |
| `Severity.SevGEFalseCases` | pkg/executor/execute.go:189-201 | `sevGE` is false when the value is empty and whenever the threshold is not one of the four levels, the empty one included. |
| `Severity.SevGEOnLevels` | pkg/executor/execute.go:187-200 | Between two levels, `sevGE` holds iff rank(value) >= rank(threshold). |
| `Severity.SevGEReflexive` | pkg/executor/execute.go:193-196 | Every level meets itself. |
| `Severity.SevGEUnknownValue` | main.go:171-177 | A non-empty value outside the scale meets every level. |
| `Severity.SevGETotalOnLevels` | main.go:165-180 | Any two levels are comparable in at least one direction. |
| `Severity.SevGETransitive` | main.go:167-180 | `sevGE` is transitive on all strings. |
| `Occurrences.Violations` | pkg/executor/execute.go:204-212 | The filtered list is never longer than the input. |
| `Occurrences.FilterOccurrences` | pkg/executor/execute.go:204-212 | The loop that appends into a fresh list returns exactly the in-order filter of the occurrences whose severity is `sevGE` the maximum severity. |
| `Occurrences.ViolationsMembers` | pkg/executor/execute.go:206-209 | An occurrence is kept iff it is in the input and its severity meets the threshold. |
| `Occurrences.ViolationsCounts` | pkg/executor/execute.go:206-209 | A kept occurrence appears as many times as in the input; the others appear zero times. |
| `Occurrences.ViolationsSubsequence` | pkg/executor/execute.go:204-212 | The result is an in-order subsequence of the input. |
| `Occurrences.ViolationsConcat` | main.go:182-190 | Filtering a concatenation filters each part separately, so input order is kept. |
| `Occurrences.ViolationsIdempotent` | main.go:182-190 | Filtering the filtered list again with the same threshold returns it unchanged. |
| `Occurrences.ViolationsEmpty` | pkg/executor/execute.go:205-211 | The result is empty iff no occurrence meets the threshold. |
| `Occurrences.ViolationsUnknownThreshold` | pkg/executor/execute.go:204-212 | A maximum severity that is not a level, such as the empty one, keeps nothing. |
| `ImageRef.TrimPrefix` | pkg/executor/execute.go:141 | When the string starts with the prefix, the result is the rest after it; otherwise the string is unchanged. |
| `ImageRef.SplitSlash` | pkg/executor/execute.go:141 | `strings.Split` on "/" always returns at least one piece. |
| `ImageRef.SplitSlashLength` | pkg/executor/execute.go:141 | There is exactly one more piece than there are separators. |
| `ImageRef.SplitSlashPieces` | main.go:115 | No piece contains "/". |
| `ImageRef.JoinSplit` | main.go:115 | Joining the pieces with "/" gives back the string. |
| `ImageRef.SplitJoin` | main.go:115 | Splitting a "/"-join of separator-free pieces returns those pieces, so split and join are inverses. |
| `ImageRef.SplitAfterSegment` | pkg/executor/execute.go:141 | A separator-free prefix followed by "/" is split off as the first piece. |
| `ImageRef.SplitSingleSegment` | pkg/executor/execute.go:141-142 | A string without "/" is one piece. |
| `ImageRef.ImageProject` | pkg/executor/execute.go:141-145 | After one "https://" is removed, an image with fewer than two "/" (fewer than three segments) gives the "Malformed image ... should be gcr.io/<project>/<name>" error and every other image gives a project; a project never contains "/". |
| `ImageRef.ProjectIsSecondSegment` | pkg/executor/execute.go:141-145 | For a reference that reads `registry/project/rest` after the prefix is removed, the project is exactly the middle segment, which may be empty (`a//b`). |
| `Cluster.PodsToImagesKeys` | pkg/executor/execute.go:124-134 | The pod map has one key per pod name. |
| `Cluster.PodsToImagesValue` | pkg/executor/execute.go:124-134 | A pod that no later pod shadows maps to its init-container images followed by its container images, in spec order. |
| `Cluster.FlatImagesLength` | main.go:101-110 | The flat list holds one entry per container, so duplicates are kept. |
| `Cluster.FlatImagesConcat` | main.go:102-109 | The flat list of concatenated pod lists is the concatenation of their flat lists. |
| `Cluster.FlatImagesMembers` | main.go:101-110 | An image is in the flat list iff some pod runs it in an init or regular container. |
| `Cluster.FlatImagesMatchMap` | main.go:101-110 | When pod names are unique, the flat list and the executor's pod map hold the same images. |
| `ImageRef.BuildRequest` | pkg/executor/execute.go:141-147 | The request fails iff the reference has fewer than three segments once one "https://" is removed, and then the error is the malformed message. Otherwise it carries the filter the caller built, unchanged. |
| `Executor.FirstListFailure` | pkg/executor/execute.go:34-39 | Gives the index of the first policy whose namespace cannot be listed: every earlier listing succeeded and the one at that index failed. |
| `Executor.WithPolicyAnnotation` | pkg/executor/execute.go:82-87 | The new map sets `invalidImageSecPolicy` to the given text and keeps every other key and value. It starts from an empty map when the pod has none. |
| `Executor.PodObject.SetPolicyAnnotation` | pkg/executor/execute.go:82-87 | Updates the pod's annotations in place to `WithPolicyAnnotation` of the old ones; name and namespace are unchanged. |
| `Executor.AddAnnotation` | pkg/executor/execute.go:67-90 | A failed pod lookup returns its error and changes nothing; otherwise it returns nil and the fetched pod carries the annotation. |
| `Executor.GetImagesInNamespace` | pkg/executor/execute.go:124-135 | The nested append loops build exactly the name-to-images map of the listed pods. |
| `Executor.GetOccurrences` | pkg/executor/execute.go:138-147 | No contract of its own; characterised by `ExecutorProperties.MalformedImageNeverFetched`, `ExecutorProperties.QueryOfWellFormedImage` and `ImageRef.BuildRequest`. |
| `Executor.PodCalls` | pkg/executor/execute.go:41-57 | No contract of its own; the calls for one pod are characterised by `Executor.PodCallsElements`, `ExecutorProperties.PodCallsConcat` and `ExecutorProperties.PodCallsSingle`. |
| `Executor.PodCallsElements` | pkg/executor/execute.go:41-57 | The distinct calls for one pod are its single call exactly when one of its images violates, and none otherwise. |
| `Executor.CheckPodImages` | pkg/executor/execute.go:41-61 | Over one pod's images, in order, skipping those whose occurrences fail, the loop appends exactly `PodCalls`: one call for each image whose filtered list is non-empty. |
| `Executor.CheckPolicy` | pkg/executor/execute.go:40-62 | Visiting the pod map in any order adds exactly the calls for the pods with a violating image. |
| `Executor.CheckNamespace` | pkg/executor/execute.go:36-62 | One policy's turn. A namespace that cannot be listed returns its error unchanged and adds no call. Otherwise it returns nil and adds exactly that policy's calls. |
| `Executor.Execute` | pkg/executor/execute.go:27-65 | Three outcomes. A policy-list error returns the wrapped "Error getting image policy requirements" error and makes no calls. The first namespace that cannot be listed returns its error unwrapped. Otherwise nil. In every case the set of calls is exactly the violating pods of the policies before the stop. |
| `ExecutorProperties.AnyImageIff` | pkg/executor/execute.go:41-49 | The backward image check holds iff some image of the list satisfies the predicate. |
| `ExecutorProperties.AnyImageWithout` | pkg/executor/execute.go:41-47 | Removing a list element that fails the predicate does not change the result. |
| `ExecutorProperties.SomeImageViolatesIff` | pkg/executor/execute.go:41-57 | A pod violates iff one of its images has retrievable occurrences with a non-empty filtered list. |
| `ExecutorProperties.FailedImageSkipped` | pkg/executor/execute.go:43-47 | An image whose occurrences cannot be retrieved is only skipped: whether the pod is annotated depends on its other images alone. |
| `ExecutorProperties.MalformedImageNeverFetched` | pkg/executor/execute.go:141-158 | A malformed reference fails with the malformed message whatever the occurrence service would answer, that is, before authentication or any request. |
| `ExecutorProperties.SingleSegmentMalformed` | pkg/executor/execute.go:141-143 | A reference without "/", such as "badimage", is rejected as malformed. |
| `ExecutorProperties.QueryOfWellFormedImage` | pkg/executor/execute.go:139-147 | `registry/project/rest` is queried at `v1alpha1/projects/<project>/occurrences`, with the filter `resourceUrl="https://<image>"`. |
| `ExecutorProperties.CallsUpToIff` | pkg/executor/execute.go:34-57 | Every call carries the fixed text "Some error in this pod." and the outcome `addAnnotation` returned. A (pod, namespace) pair is annotated iff, for a processed policy on that namespace, the pod is listed and one of its images violates. |
| `ExecutorProperties.NamespaceCallsIff` | pkg/executor/execute.go:36-57 | For one policy, every call carries the fixed text and `addAnnotation`'s outcome. A (pod, namespace) pair is annotated iff the policy is on that namespace, the namespace was listed and one of the pod's images violates. |
| `ExecutorProperties.AnnotationFailuresIgnored` | pkg/executor/execute.go:54-56 | The annotated (pod, namespace) pairs do not depend on whether `addAnnotation` fails. |
| `ExecutorProperties.PolicyCallsOfPods` | pkg/executor/execute.go:40-57 | When pod names are unique, a listed pod is annotated iff one of its init or regular images violates. |
| `ExecutorProperties.PodCallsConcat` | pkg/executor/execute.go:41-57 | The calls for a pod's images split along any split of the image list, so they follow image order. |
| `ExecutorProperties.PodCallsSingle` | pkg/executor/execute.go:43-56 | One image gives exactly one call when its occurrences were retrieved and its filtered list is non-empty, and none otherwise. |
| `ExecutorProperties.SinglePodMap` | pkg/executor/execute.go:124-134 | One listed pod gives a map with one key, mapped to that pod's images. |
| `ExecutorProperties.SinglePodCalls` | pkg/executor/execute.go:40-57 | A map with one pod yields that pod's call iff its images violate. |
| `ExecutorProperties.SinglePodPolicy` | pkg/executor/execute.go:34-62 | With one policy whose namespace lists one pod, the run reaches the end and annotates that pod iff its images violate. |
| `ExecutorProperties.ScenarioCriticalFinding` | pkg/executor/execute.go:27-65 | Scenario: one HIGH policy on "default", and one pod whose image has a CRITICAL finding. Exactly that pod is annotated. |
| `ExecutorProperties.ScenarioLowFinding` | pkg/executor/execute.go:27-65 | Scenario: the same setup, but the pod's only finding is LOW. No annotation call is made. |
| `ExecutorProperties.ScenarioImageQuery` | pkg/executor/execute.go:138-147 | The reference "gcr.io/proj/app:1" is queried at `v1alpha1/projects/proj/occurrences` with the filter `resourceUrl="https://gcr.io/proj/app:1"`. |
| `ExecutorProperties.ScenarioConcreteImage` | pkg/executor/execute.go:27-65 | Scenario through `getOccurrences`: the pod runs "gcr.io/proj/app:1" and the service answers that image's request with a CRITICAL finding. Exactly that pod is annotated. |
| `ExecutorProperties.ScenarioPartialFailure` | pkg/executor/execute.go:41-57 | Scenario: the pod's first image fails to fetch and its second has a CRITICAL finding. The first is skipped and the pod is still annotated. |
| `MainProgram.GetOccurrences` | main.go:113-121 | No contract of its own; characterised by `MainProperties.QueryOfWellFormedImage`, `ImageRef.BuildRequest` and `DraftComparison.SameValidationDifferentFilter`. |
| `MainProgram.CheckImages` | main.go:48-64 | No contract of its own; the image loop is characterised by `MainProperties.CheckImagesStopsAtFirstError`. |
| `MainProgram.PolicyOutcome` | main.go:44-64 | No contract of its own; one policy's outcome is characterised by `MainProperties.PolicyOutcomeCases`. |
| `MainProgram.CheckPolicies` | main.go:42-66 | No contract of its own; the policy loop is characterised by `MainProperties.CheckPoliciesStopsAtFirstError` and `MainProperties.CheckPoliciesSucceedsIff`. |
| `MainProgram.Run` | main.go:37-67 | No contract of its own; a run is characterised by `MainProperties.RunStopsAtFirstError` and `MainProperties.RunSucceedsIff`. |
| `MainProgram.GetImagesInNamespace` | main.go:101-110 | The append loops build the flat list: each pod in order, init images and then container images. |
| `MainProgram.CheckPolicyImages` | main.go:48-64 | The image loop of one policy returns what `CheckImages` specifies: the vulnerable images printed in order, and a stop at the first image whose occurrences fail. |
| `MainProgram.CheckNamespace` | main.go:44-64 | One policy's turn returns exactly `PolicyOutcome`. A listing error is returned unchanged. Otherwise the outcome is the image loop over the namespace's flat image list. |
| `MainProgram.Execute` | main.go:37-67 | The strict run returns exactly the error and the printed images of `Run`. It has no annotation collaborator, so it changes no workload. |
| `MainProperties.FirstFetchFailure` | main.go:48-53 | Gives the index of the first image whose occurrences cannot be retrieved: every earlier image succeeded and the one at that index failed. |
| `MainProperties.QueryOfWellFormedImage` | main.go:113-121 | `registry/project/rest` is queried at `v1alpha1/projects/<project>/occurrences`, with the filter `kind="PACKAGE_VULNERABILITY" AND resourceUrl="<image>"`. |
| `MainProperties.CheckImagesStopsAtFirstError` | main.go:48-64 | One policy's loop prints exactly the vulnerable images before the first failing image, then returns "couldn't get occurrences: " plus that image's error. It returns no error only when every image was retrieved. |
| `MainProperties.PolicyOutcomeCases` | main.go:44-64 | A namespace that cannot be listed returns its error unchanged and prints nothing. Otherwise the policy prints the vulnerable images before its first failing image and returns that image's wrapped error, or prints all its vulnerable images and returns nil. |
| `MainProperties.FirstPolicyFailure` | main.go:42-65 | Gives the index of the first policy that ends with an error: every earlier policy ended without one and the one at that index did not. |
| `MainProperties.PolicySucceeded` | main.go:44-64 | A policy that ends without an error listed its namespace and printed every vulnerable image of it. |
| `MainProperties.CheckPoliciesStopsAtFirstError` | main.go:42-66 | The policy loop returns the first failing policy's error, having printed every vulnerable image of the earlier policies and then what the failing policy printed; no later policy contributes. Without a failing policy it returns nil and prints every vulnerable image. |
| `MainProperties.CheckPoliciesSucceedsIff` | main.go:42-66 | The policy loop returns nil iff every namespace lists and every image is retrieved. Then it has printed the vulnerable images of every policy, policy by policy. |
| `MainProperties.RunSucceedsIff` | main.go:37-67 | A policy-list error gives the wrapped "error getting image policy requirements" error and prints nothing. Otherwise the run returns nil iff everything was retrieved. |
| `MainProperties.RunStopsAtFirstError` | main.go:37-67 | After the policies are listed, a run ends with the first failing policy's error (its listing error, or its first failing image's wrapped error) and prints the vulnerable images up to that point. |
| `MainProperties.FirstImageFailureAborts` | main.go:48-53 | When the first policy's first image cannot be retrieved, the whole run ends with that wrapped error and prints nothing. |
| `DraftComparison.SameValidationDifferentFilter` | main.go:113-121 | Both drafts reject the same references with the same message and query the same project path. Their filters differ by the "https://" in front versus the package-vulnerability kind. |

## Left out

- Kubernetes client construction, kubeconfig loading and the CRD and pod list/get calls (pkg/executor/execute.go:68-81, 93-106, 110-123; main.go:70-99). These are calls into foreign libraries. Their results are inputs to the model, including their wrapped error texts.
- The two drafts list policies in different scopes: all namespaces in the executor, "default" in main.go. The model only uses the listing result.
- The OAuth client, the HTTP GET, reading the body, the status-code check, `url.Values.Encode`, the fixed host `containeranalysis.googleapis.com`, and JSON decoding (pkg/executor/execute.go:149-184; main.go:123-162). These are network I/O and foreign code. The occurrence service input stands for all of them.
- The occurrence service, the pod listing and `addAnnotation`'s outcome are functions. A repeated request within one run gets the same answer.
- `log.Fatal` on an authentication failure in main.go:137-139. It ends the process, which this model of a run does not represent.
- Logging, printing and flag parsing, and `os.Exit` in `main`. The one exception is the "Found vulnz in" lines of main.go, which are the `reported` list.
- Occurrence fields other than the note name and the severity.
- `Whitelist` and `OnlyFixesAvailable` (pkg/apis/kritis/v1beta1/types.go:22-23). No filtering code reads them.
- Go's distinction between a nil slice and an allocated empty slice. Dafny sequences have no nil, so "empty, not nil" in `filterOccurrences` is not expressible.
- Persisting the annotation. `addAnnotation` only updates the fetched object, and so does the model. The Go map aliasing between `pod.Annotations` and the local map is modelled as a value update with the same end state.
- `Executor.Execute`: states the annotation calls as a set. Not stated: the order of the calls, which depends on Go's map order, and how many calls a pod gets (one per violating image, as `Executor.CheckPodImages` states for one pod).
- `Executor.CheckPolicy`: states the calls as a set, for the same reason.
- `Executor.CheckNamespace`: states the calls as a set, because it runs `CheckPolicy` over the same map order. Within one pod the order and the number of calls are stated exactly, by `Executor.CheckPodImages`.
- Concurrency, timeouts and cancellation. The source has none.
