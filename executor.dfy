/**
 * The tolerant orchestration draft of pkg/executor/execute.go: policies, then
 * each policy's namespace, its pods (in map order) and their images.
 */
module Executor {
  import opened Results
  import opened Occurrences
  import opened ImageRef
  import opened Cluster

  /** The annotation key `addAnnotation` sets. */
  const AnnotationKey: string := "invalidImageSecPolicy"

  /** The annotation text `Execute` passes for a violating image. */
  const ViolationAnnotation: string := "Some error in this pod."

  /** The wrapped error `Execute` returns when the policies cannot be listed. */
  function PolicyListError(e: string): string {
    "Error getting image policy requirements: " + e
  }

  /** The filter `getOccurrences` sends: the image with "https://" put in front, as it is. */
  function ResourceFilter(image: string): string {
    "resourceUrl=\"" + HttpsPrefix + image + "\""
  }

  /** The request `getOccurrences` would send for an image, or the malformed-image error. */
  function OccurrencesQuery(image: string): Result<OccurrencesRequest> {
    BuildRequest(image, ResourceFilter(image))
  }

  /**
   * `getOccurrences`: validate and build the request, then ask the occurrence service
   * `fetch`, which stands for authentication, the HTTP GET, the status check and JSON
   * decoding together; a malformed image never reaches it.
   */
  function GetOccurrences(fetch: OccurrencesRequest -> Result<seq<Occurrence>>, image: string): Result<seq<Occurrence>> {
    match OccurrencesQuery(image)
    case Failure(e) => Failure(e)
    case Success(request) => fetch(request)
  }

  /** One call of `addAnnotation` made by `Execute`, with the error it returned (only logged). */
  datatype AnnotationCall = AnnotationCall(pod: string, namespace: string, annotation: string, failure: Option<string>)

  /** The call `Execute` makes for a violating pod of a namespace. */
  function ViolationCall(annotate: (string, string, string) -> Option<string>, pod: string, namespace: string): AnnotationCall {
    AnnotationCall(pod, namespace, ViolationAnnotation, annotate(pod, namespace, ViolationAnnotation))
  }

  /** `getOccurrences` as a function of the image, for a given occurrence service. */
  function OccurrencesOf(fetch: OccurrencesRequest -> Result<seq<Occurrence>>): string -> Result<seq<Occurrence>> {
    image => GetOccurrences(fetch, image)
  }

  /**
   * An image violates a policy when its occurrences were retrieved and some meet the
   * maximum severity. From here on, `retrieve` is `getOccurrences` taken as a function of
   * the image; `Execute` passes `OccurrencesOf(fetch)`.
   */
  predicate ImageViolates(retrieve: string -> Result<seq<Occurrence>>, maxSeverity: string, image: string) {
    var occs := retrieve(image);
    occs.Success? && Violations(occs.value, maxSeverity) != []
  }

  /** Some image of the list satisfies `violates`, looking from the last one back. */
  predicate AnyImage(violates: string -> bool, images: seq<string>) {
    images != [] && (AnyImage(violates, images[..|images| - 1]) || violates(images[|images| - 1]))
  }

  /** Some image of the list violates. */
  predicate SomeImageViolates(retrieve: string -> Result<seq<Occurrence>>, maxSeverity: string, images: seq<string>) {
    AnyImage(image => ImageViolates(retrieve, maxSeverity, image), images)
  }

  /** The annotation calls for the pods `done` of one policy's pod map. */
  function PolicyCalls(policy: ImageSecurityPolicy, podsToImages: map<string, seq<string>>, done: set<string>,
                       retrieve: string -> Result<seq<Occurrence>>,
                       annotate: (string, string, string) -> Option<string>): set<AnnotationCall>
  {
    set pod | pod in done && pod in podsToImages && SomeImageViolates(retrieve, policy.maximumSeverity, podsToImages[pod])
      :: ViolationCall(annotate, pod, policy.namespace)
  }

  /** The index of the first policy whose namespace's pods cannot be listed, or the number of policies. */
  function FirstListFailure(iprs: seq<ImageSecurityPolicy>, listPods: string -> Result<seq<Pod>>): (k: nat)
    ensures k <= |iprs|
    ensures forall j :: 0 <= j < k ==> listPods(iprs[j].namespace).Success?
    ensures k < |iprs| ==> listPods(iprs[k].namespace).Failure?
  {
    if iprs == [] then 0
    else if listPods(iprs[0].namespace).Failure? then 0
    else 1 + FirstListFailure(iprs[1..], listPods)
  }

  /** The annotation calls for one policy whose namespace's pods were listed, none when the listing failed. */
  function NamespaceCalls(ipr: ImageSecurityPolicy, listPods: string -> Result<seq<Pod>>,
                          retrieve: string -> Result<seq<Occurrence>>,
                          annotate: (string, string, string) -> Option<string>): set<AnnotationCall>
  {
    match listPods(ipr.namespace)
    case Failure(_) => {}
    case Success(pods) =>
      var podsToImages := PodsToImages(pods);
      PolicyCalls(ipr, podsToImages, podsToImages.Keys, retrieve, annotate)
  }

  /** The annotation calls of the first `n` policies. */
  function CallsUpTo(iprs: seq<ImageSecurityPolicy>, n: nat, listPods: string -> Result<seq<Pod>>,
                     retrieve: string -> Result<seq<Occurrence>>,
                     annotate: (string, string, string) -> Option<string>): set<AnnotationCall>
    requires n <= |iprs|
  {
    if n == 0 then {}
    else CallsUpTo(iprs, n - 1, listPods, retrieve, annotate) + NamespaceCalls(iprs[n - 1], listPods, retrieve, annotate)
  }

  /**
   * `getImagesInNamespace` after the pods are listed: map each pod's name to its init
   * containers' images followed by its containers' images.
   */
  method GetImagesInNamespace(pods: seq<Pod>) returns (podsToImages: map<string, seq<string>>)
    ensures podsToImages == PodsToImages(pods)
  {
    podsToImages := map[];
    for i := 0 to |pods|
      invariant podsToImages == PodsToImages(pods[..i])
    {
      var pod := pods[i];
      var images: seq<string> := [];
      for j := 0 to |pod.initImages|
        invariant images == pod.initImages[..j]
      {
        images := images + [pod.initImages[j]];
      }
      for j := 0 to |pod.images|
        invariant images == pod.initImages + pod.images[..j]
      {
        images := images + [pod.images[j]];
      }
      assert pod.initImages[..|pod.initImages|] == pod.initImages;
      assert pod.images[..|pod.images|] == pod.images;
      podsToImages := podsToImages[pod.name := images];
      assert pods[..i + 1][..i] == pods[..i];
    }
    assert pods[..|pods|] == pods;
  }

  /**
   * The annotations `addAnnotation` leaves on a pod: the pod's own map, or an empty
   * one when it has none, with `invalidImageSecPolicy` set.
   */
  function WithPolicyAnnotation(existing: Option<map<string, string>>, annotation: string): (r: map<string, string>)
    ensures r.Keys == existing.GetOr(map[]).Keys + {AnnotationKey}
    ensures r[AnnotationKey] == annotation
    ensures forall key :: key in existing.GetOr(map[]) && key != AnnotationKey ==> r[key] == existing.GetOr(map[])[key]
  {
    var annotations := if existing.Some? then existing.value else map[];
    annotations[AnnotationKey := annotation]
  }

  /** The part of a fetched pod object that `addAnnotation` touches; `None` annotations stand for Go's nil map. */
  class PodObject {
    var name: string
    var namespace: string
    var annotations: Option<map<string, string>>

    constructor (name: string, namespace: string, annotations: Option<map<string, string>>)
      ensures this.name == name && this.namespace == namespace && this.annotations == annotations
    {
      this.name := name;
      this.namespace := namespace;
      this.annotations := annotations;
    }

    /** `pod.SetAnnotations` with the updated map; nothing is written back to the cluster. */
    method SetPolicyAnnotation(annotation: string)
      modifies this
      ensures annotations == Some(WithPolicyAnnotation(old(annotations), annotation))
      ensures name == old(name) && namespace == old(namespace)
    {
      var updated: map<string, string> := map[];
      if annotations.Some? {
        updated := annotations.value;
      }
      updated := updated[AnnotationKey := annotation];
      annotations := Some(updated);
    }
  }

  /**
   * `addAnnotation` once the pod has been fetched: `fetched` is the result of building
   * the client and getting the named pod; on success the annotation is set on that object.
   */
  method AddAnnotation(fetched: Result<PodObject>, annotation: string) returns (err: Option<string>)
    modifies if fetched.Success? then {fetched.value} else {}
    ensures fetched.Failure? ==> err == Some(fetched.error)
    ensures fetched.Success? ==>
      && err == None
      && fetched.value.annotations == Some(WithPolicyAnnotation(old(fetched.value.annotations), annotation))
      && fetched.value.name == old(fetched.value.name)
      && fetched.value.namespace == old(fetched.value.namespace)
  {
    if fetched.Failure? {
      return Some(fetched.error);
    }
    fetched.value.SetPolicyAnnotation(annotation);
    return None;
  }

  /** The distinct elements of a trace. */
  function Elements<T>(s: seq<T>): set<T> {
    set x | x in s
  }

  /** Finishing one more pod adds its call when one of its images violates. */
  lemma PolicyCallsStep(policy: ImageSecurityPolicy, podsToImages: map<string, seq<string>>, done: set<string>, pod: string,
                        retrieve: string -> Result<seq<Occurrence>>,
                        annotate: (string, string, string) -> Option<string>)
    requires pod in podsToImages
    ensures PolicyCalls(policy, podsToImages, done + {pod}, retrieve, annotate) ==
      PolicyCalls(policy, podsToImages, done, retrieve, annotate) +
      (if SomeImageViolates(retrieve, policy.maximumSeverity, podsToImages[pod]) then {ViolationCall(annotate, pod, policy.namespace)} else {})
  {
  }

  /** One turn of the pod loop of `CheckPolicy` keeps its invariant. */
  lemma PolicyCallsLoopStep(policy: ImageSecurityPolicy, podsToImages: map<string, seq<string>>, remaining: set<string>, pod: string,
                            retrieve: string -> Result<seq<Occurrence>>,
                            annotate: (string, string, string) -> Option<string>,
                            start: set<AnnotationCall>, before: set<AnnotationCall>, after: set<AnnotationCall>)
    requires remaining <= podsToImages.Keys && pod in remaining
    requires before == start + PolicyCalls(policy, podsToImages, podsToImages.Keys - remaining, retrieve, annotate)
    requires after == before +
      (if SomeImageViolates(retrieve, policy.maximumSeverity, podsToImages[pod]) then {ViolationCall(annotate, pod, policy.namespace)} else {})
    ensures after == start + PolicyCalls(policy, podsToImages, podsToImages.Keys - (remaining - {pod}), retrieve, annotate)
  {
    assert podsToImages.Keys - (remaining - {pod}) == (podsToImages.Keys - remaining) + {pod};
    PolicyCallsStep(policy, podsToImages, podsToImages.Keys - remaining, pod, retrieve, annotate);
  }

  /**
   * The calls the image loop makes for one pod, in image order: one call for every
   * image whose occurrences were retrieved and have a violation.
   */
  function PodCalls(ipr: ImageSecurityPolicy, pod: string, images: seq<string>,
                    retrieve: string -> Result<seq<Occurrence>>,
                    annotate: (string, string, string) -> Option<string>): seq<AnnotationCall>
  {
    if images == [] then []
    else
      PodCalls(ipr, pod, images[..|images| - 1], retrieve, annotate) +
      (if ImageViolates(retrieve, ipr.maximumSeverity, images[|images| - 1]) then [ViolationCall(annotate, pod, ipr.namespace)] else [])
  }

  lemma ElementsConcat<T>(s: seq<T>, t: seq<T>)
    ensures Elements(s + t) == Elements(s) + Elements(t)
  {
  }

  /** The distinct calls for one pod: its single call exactly when one of its images violates. */
  lemma {:induction false} PodCallsElements(ipr: ImageSecurityPolicy, pod: string, images: seq<string>,
                                            retrieve: string -> Result<seq<Occurrence>>,
                                            annotate: (string, string, string) -> Option<string>)
    ensures Elements(PodCalls(ipr, pod, images, retrieve, annotate)) ==
      if SomeImageViolates(retrieve, ipr.maximumSeverity, images) then {ViolationCall(annotate, pod, ipr.namespace)} else {}
  {
    if images != [] {
      var init := images[..|images| - 1];
      PodCallsElements(ipr, pod, init, retrieve, annotate);
      var last := if ImageViolates(retrieve, ipr.maximumSeverity, images[|images| - 1]) then [ViolationCall(annotate, pod, ipr.namespace)] else [];
      ElementsConcat(PodCalls(ipr, pod, init, retrieve, annotate), last);
    }
  }

  /**
   * The image loop of `Execute` for one pod: an image whose occurrences cannot be
   * retrieved is skipped, and every image with a violation adds a call, in image order.
   */
  method CheckPodImages(ipr: ImageSecurityPolicy, pod: string, images: seq<string>,
                        retrieve: string -> Result<seq<Occurrence>>,
                        annotate: (string, string, string) -> Option<string>,
                        calls: seq<AnnotationCall>)
    returns (calls': seq<AnnotationCall>)
    ensures calls' == calls + PodCalls(ipr, pod, images, retrieve, annotate)
  {
    calls' := calls;
    for j := 0 to |images|
      invariant calls' == calls + PodCalls(ipr, pod, images[..j], retrieve, annotate)
    {
      var image := images[j];
      assert images[..j + 1][..j] == images[..j];
      var occs := retrieve(image);
      if occs.Failure? {
        continue;
      }
      var filtered := FilterOccurrences(occs.value, ipr.maximumSeverity);
      if |filtered| > 0 {
        var failure := annotate(pod, ipr.namespace, ViolationAnnotation);
        calls' := calls' + [AnnotationCall(pod, ipr.namespace, ViolationAnnotation, failure)];
      }
    }
    assert images[..|images|] == images;
  }

  /** The pod loop of `Execute` for one policy, over the map's keys in an unspecified order. */
  method CheckPolicy(ipr: ImageSecurityPolicy, podsToImages: map<string, seq<string>>,
                     retrieve: string -> Result<seq<Occurrence>>,
                     annotate: (string, string, string) -> Option<string>,
                     calls: seq<AnnotationCall>)
    returns (calls': seq<AnnotationCall>)
    ensures Elements(calls') == Elements(calls) + PolicyCalls(ipr, podsToImages, podsToImages.Keys, retrieve, annotate)
  {
    calls' := calls;
    var remaining := podsToImages.Keys;
    while remaining != {}
      invariant remaining <= podsToImages.Keys
      invariant Elements(calls') == Elements(calls) + PolicyCalls(ipr, podsToImages, podsToImages.Keys - remaining, retrieve, annotate)
      decreases |remaining|
    {
      var pod :| pod in remaining;
      ghost var before := Elements(calls');
      ghost var prior := calls';
      calls' := CheckPodImages(ipr, pod, podsToImages[pod], retrieve, annotate, calls');
      PodCallsElements(ipr, pod, podsToImages[pod], retrieve, annotate);
      ElementsConcat(prior, PodCalls(ipr, pod, podsToImages[pod], retrieve, annotate));
      PolicyCallsLoopStep(ipr, podsToImages, remaining, pod, retrieve, annotate, Elements(calls), before, Elements(calls'));
      remaining := remaining - {pod};
    }
  }

  /** Where the scan for the first listing failure stands after `i` successful policies. */
  lemma FirstListFailureFrom(iprs: seq<ImageSecurityPolicy>, listPods: string -> Result<seq<Pod>>, i: nat)
    requires i <= |iprs| && i <= FirstListFailure(iprs, listPods)
    ensures i == |iprs| ==> FirstListFailure(iprs, listPods) == i
    ensures i < |iprs| && listPods(iprs[i].namespace).Failure? ==> FirstListFailure(iprs, listPods) == i
    ensures i < |iprs| && listPods(iprs[i].namespace).Success? ==> i + 1 <= FirstListFailure(iprs, listPods)
  {
  }

  /**
   * One turn of the policy loop of `Execute`: list the namespace's pods (`getImagesInNamespace`
   * returns the listing error as it is), then check every pod of the map.
   */
  method CheckNamespace(ipr: ImageSecurityPolicy, listPods: string -> Result<seq<Pod>>,
                        retrieve: string -> Result<seq<Occurrence>>,
                        annotate: (string, string, string) -> Option<string>,
                        calls: seq<AnnotationCall>)
    returns (err: Option<string>, calls': seq<AnnotationCall>)
    ensures listPods(ipr.namespace).Failure? ==> err == Some(listPods(ipr.namespace).error) && calls' == calls
    ensures listPods(ipr.namespace).Success? ==>
      err == None && Elements(calls') == Elements(calls) + NamespaceCalls(ipr, listPods, retrieve, annotate)
  {
    var pods := listPods(ipr.namespace);
    if pods.Failure? {
      return Some(pods.error), calls;
    }
    var podsToImages := GetImagesInNamespace(pods.value);
    calls' := CheckPolicy(ipr, podsToImages, retrieve, annotate, calls);
    err := None;
  }

  /**
   * `Execute`, with its collaborators as inputs: the policy listing, the pod listing
   * per namespace, the occurrence service and `addAnnotation`. Pods are visited in an
   * unspecified order, so the calls are stated as a set.
   */
  method Execute(policies: Result<seq<ImageSecurityPolicy>>,
                 listPods: string -> Result<seq<Pod>>,
                 fetch: OccurrencesRequest -> Result<seq<Occurrence>>,
                 annotate: (string, string, string) -> Option<string>)
    returns (err: Option<string>, calls: seq<AnnotationCall>)
    ensures policies.Failure? ==> err == Some(PolicyListError(policies.error)) && calls == []
    ensures policies.Success? ==>
      var k := FirstListFailure(policies.value, listPods);
      && err == (if k < |policies.value| then Some(listPods(policies.value[k].namespace).error) else None)
      && Elements(calls) == CallsUpTo(policies.value, k, listPods, OccurrencesOf(fetch), annotate)
  {
    if policies.Failure? {
      return Some(PolicyListError(policies.error)), [];
    }
    var iprs := policies.value;
    calls := [];
    for i := 0 to |iprs|
      invariant i <= FirstListFailure(iprs, listPods)
      invariant Elements(calls) == CallsUpTo(iprs, i, listPods, OccurrencesOf(fetch), annotate)
    {
      FirstListFailureFrom(iprs, listPods, i);
      var failure, next := CheckNamespace(iprs[i], listPods, OccurrencesOf(fetch), annotate, calls);
      if failure.Some? {
        return failure, calls;
      }
      calls := next;
    }
    FirstListFailureFrom(iprs, listPods, |iprs|);
    return None, calls;
  }
}

/** What the tolerant draft promises, stated over the functions `Execute` is proved against. */
module ExecutorProperties {
  import opened Results
  import opened Occurrences
  import opened ImageRef
  import opened Cluster
  import opened Executor
  import opened Severity

  /** `AnyImage` holds exactly when some image of the list satisfies the predicate. */
  lemma {:induction false} AnyImageIff(violates: string -> bool, images: seq<string>)
    ensures AnyImage(violates, images) <==> exists k :: 0 <= k < |images| && violates(images[k])
  {
    if images != [] {
      var init := images[..|images| - 1];
      AnyImageIff(violates, init);
      assert forall k :: 0 <= k < |init| ==> init[k] == images[k];
    }
  }

  /** An image that does not satisfy the predicate can be removed without changing `AnyImage`. */
  lemma AnyImageWithout(violates: string -> bool, before: seq<string>, bad: string, after: seq<string>)
    requires !violates(bad)
    ensures AnyImage(violates, before + [bad] + after) <==> AnyImage(violates, before + after)
  {
    var withBad := before + [bad] + after;
    var without := before + after;
    AnyImageIff(violates, withBad);
    AnyImageIff(violates, without);
    if AnyImage(violates, withBad) {
      var k :| 0 <= k < |withBad| && violates(withBad[k]);
      if k < |before| {
        assert without[k] == withBad[k];
      } else {
        assert without[k - 1] == withBad[k];
      }
    }
    if AnyImage(violates, without) {
      var k :| 0 <= k < |without| && violates(without[k]);
      if k < |before| {
        assert withBad[k] == without[k];
      } else {
        assert withBad[k + 1] == without[k];
      }
    }
  }

  /** A pod violates exactly when one of its images does. */
  lemma SomeImageViolatesIff(retrieve: string -> Result<seq<Occurrence>>, maxSeverity: string, images: seq<string>)
    ensures SomeImageViolates(retrieve, maxSeverity, images) <==>
      exists k :: 0 <= k < |images| && ImageViolates(retrieve, maxSeverity, images[k])
  {
    AnyImageIff(image => ImageViolates(retrieve, maxSeverity, image), images);
  }

  /**
   * An image whose occurrences cannot be retrieved is only skipped: whether the pod
   * violates is decided by its other images alone.
   */
  lemma FailedImageSkipped(retrieve: string -> Result<seq<Occurrence>>, maxSeverity: string,
                           before: seq<string>, bad: string, after: seq<string>)
    requires retrieve(bad).Failure?
    ensures SomeImageViolates(retrieve, maxSeverity, before + [bad] + after) <==>
      SomeImageViolates(retrieve, maxSeverity, before + after)
  {
    AnyImageWithout(image => ImageViolates(retrieve, maxSeverity, image), before, bad, after);
  }

  /** A malformed image reference fails before the occurrence service is asked, whatever it would answer. */
  lemma MalformedImageNeverFetched(fetch: OccurrencesRequest -> Result<seq<Occurrence>>, image: string)
    requires SlashCount(TrimPrefix(image, HttpsPrefix)) < 2
    ensures GetOccurrences(fetch, image) == Failure(MalformedMessage(image))
  {
  }

  /**
   * A reference that reads `registry/project/rest` (after one "https://" is removed) is
   * queried at the project's occurrence path, with "https://" put in front of the
   * unmodified reference in the filter.
   */
  lemma QueryOfWellFormedImage(image: string, registry: string, project: string, rest: string)
    requires TrimPrefix(image, HttpsPrefix) == registry + "/" + project + "/" + rest
    requires '/' !in registry && '/' !in project
    ensures OccurrencesQuery(image) ==
      Success(OccurrencesRequest("v1alpha1/projects/" + project + "/occurrences", "resourceUrl=\"https://" + image + "\""))
  {
    ProjectIsSecondSegment(image, registry, project, rest);
    assert "resourceUrl=\"" + HttpsPrefix == "resourceUrl=\"https://";
  }

  /** The (pod, namespace) pairs a set of calls annotates. */
  function Targets(calls: set<AnnotationCall>): set<(string, string)> {
    set c | c in calls :: (c.pod, c.namespace)
  }

  /** The targets of a union of calls are the union of their targets. */
  lemma TargetsUnion(a: set<AnnotationCall>, b: set<AnnotationCall>)
    ensures Targets(a + b) == Targets(a) + Targets(b)
  {
    forall t | t in Targets(a + b) ensures t in Targets(a) + Targets(b) {
      var c :| c in a + b && (c.pod, c.namespace) == t;
      if c in a {
        assert t in Targets(a);
      } else {
        assert t in Targets(b);
      }
    }
  }

  /**
   * The calls for one policy carry the fixed text and `addAnnotation`'s outcome, and
   * target a pod of a namespace exactly when the policy is on that namespace, the
   * namespace was listed and one of the pod's images violates.
   */
  lemma NamespaceCallsIff(ipr: ImageSecurityPolicy, listPods: string -> Result<seq<Pod>>,
                          retrieve: string -> Result<seq<Occurrence>>,
                          annotate: (string, string, string) -> Option<string>,
                          pod: string, namespace: string)
    ensures forall c :: c in NamespaceCalls(ipr, listPods, retrieve, annotate) ==> c == ViolationCall(annotate, c.pod, c.namespace)
    ensures (pod, namespace) in Targets(NamespaceCalls(ipr, listPods, retrieve, annotate)) <==>
      ipr.namespace == namespace && listPods(namespace).Success? &&
      pod in PodsToImages(listPods(namespace).value) &&
      SomeImageViolates(retrieve, ipr.maximumSeverity, PodsToImages(listPods(namespace).value)[pod])
  {
    var calls := NamespaceCalls(ipr, listPods, retrieve, annotate);
    if (pod, namespace) in Targets(calls) {
      var c :| c in calls && (c.pod, c.namespace) == (pod, namespace);
    }
    if ipr.namespace == namespace && listPods(namespace).Success? &&
       pod in PodsToImages(listPods(namespace).value) &&
       SomeImageViolates(retrieve, ipr.maximumSeverity, PodsToImages(listPods(namespace).value)[pod]) {
      var c := ViolationCall(annotate, pod, namespace);
      assert c in calls;
      assert (c.pod, c.namespace) in Targets(calls);
    }
  }

  /**
   * The calls of the first `n` policies: every call carries the fixed annotation text
   * and the outcome `addAnnotation` gave it, and a pod of a namespace is annotated
   * exactly when, for one of those policies on that namespace, the pod is in the
   * listed map and one of its images violates the policy.
   */
  lemma {:induction false} CallsUpToIff(iprs: seq<ImageSecurityPolicy>, n: nat, listPods: string -> Result<seq<Pod>>,
                                        retrieve: string -> Result<seq<Occurrence>>,
                                        annotate: (string, string, string) -> Option<string>,
                                        pod: string, namespace: string)
    requires n <= |iprs|
    ensures forall c :: c in CallsUpTo(iprs, n, listPods, retrieve, annotate) ==> c == ViolationCall(annotate, c.pod, c.namespace)
    ensures (pod, namespace) in Targets(CallsUpTo(iprs, n, listPods, retrieve, annotate)) <==>
      exists i :: 0 <= i < n && iprs[i].namespace == namespace && listPods(namespace).Success? &&
        pod in PodsToImages(listPods(namespace).value) &&
        SomeImageViolates(retrieve, iprs[i].maximumSeverity, PodsToImages(listPods(namespace).value)[pod])
  {
    if n > 0 {
      CallsUpToIff(iprs, n - 1, listPods, retrieve, annotate, pod, namespace);
      NamespaceCallsIff(iprs[n - 1], listPods, retrieve, annotate, pod, namespace);
      TargetsUnion(CallsUpTo(iprs, n - 1, listPods, retrieve, annotate), NamespaceCalls(iprs[n - 1], listPods, retrieve, annotate));
    }
  }

  /**
   * Which pods get annotated does not depend on whether `addAnnotation` succeeds:
   * a failed annotation is only logged.
   */
  lemma AnnotationFailuresIgnored(iprs: seq<ImageSecurityPolicy>, n: nat, listPods: string -> Result<seq<Pod>>,
                                  retrieve: string -> Result<seq<Occurrence>>,
                                  annotate1: (string, string, string) -> Option<string>,
                                  annotate2: (string, string, string) -> Option<string>)
    requires n <= |iprs|
    ensures Targets(CallsUpTo(iprs, n, listPods, retrieve, annotate1)) == Targets(CallsUpTo(iprs, n, listPods, retrieve, annotate2))
  {
    forall t: (string, string)
      ensures t in Targets(CallsUpTo(iprs, n, listPods, retrieve, annotate1)) <==> t in Targets(CallsUpTo(iprs, n, listPods, retrieve, annotate2))
    {
      CallsUpToIff(iprs, n, listPods, retrieve, annotate1, t.0, t.1);
      CallsUpToIff(iprs, n, listPods, retrieve, annotate2, t.0, t.1);
    }
  }

  /**
   * With unique pod names, a listed pod is annotated for a policy exactly when one of
   * its init or regular containers runs a violating image.
   */
  lemma PolicyCallsOfPods(policy: ImageSecurityPolicy, pods: seq<Pod>, i: nat,
                          retrieve: string -> Result<seq<Occurrence>>,
                          annotate: (string, string, string) -> Option<string>)
    requires UniqueNames(pods) && i < |pods|
    ensures var podsToImages := PodsToImages(pods);
      ViolationCall(annotate, pods[i].name, policy.namespace) in PolicyCalls(policy, podsToImages, podsToImages.Keys, retrieve, annotate)
      <==> SomeImageViolates(retrieve, policy.maximumSeverity, ContainerImages(pods[i]))
  {
    PodsToImagesValue(pods, i);
  }

  /** The calls for a pod's images split along any split of its image list. */
  lemma {:induction false} PodCallsConcat(ipr: ImageSecurityPolicy, pod: string, front: seq<string>, back: seq<string>,
                                          retrieve: string -> Result<seq<Occurrence>>,
                                          annotate: (string, string, string) -> Option<string>)
    ensures PodCalls(ipr, pod, front + back, retrieve, annotate) ==
      PodCalls(ipr, pod, front, retrieve, annotate) + PodCalls(ipr, pod, back, retrieve, annotate)
  {
    if back == [] {
      assert front + back == front;
    } else {
      var init := back[..|back| - 1];
      PodCallsConcat(ipr, pod, front, init, retrieve, annotate);
      assert (front + back)[..|front + back| - 1] == front + init;
      assert (front + back)[|front + back| - 1] == back[|back| - 1];
    }
  }

  /** A single image gives one call when it violates and none otherwise. */
  lemma PodCallsSingle(ipr: ImageSecurityPolicy, pod: string, image: string,
                       retrieve: string -> Result<seq<Occurrence>>,
                       annotate: (string, string, string) -> Option<string>)
    ensures PodCalls(ipr, pod, [image], retrieve, annotate) ==
      if ImageViolates(retrieve, ipr.maximumSeverity, image) then [ViolationCall(annotate, pod, ipr.namespace)] else []
  {
    assert [image][..0] == [];
  }

  /** A reference without any "/", such as "badimage", is rejected as malformed whatever the service would say. */
  lemma SingleSegmentMalformed(fetch: OccurrencesRequest -> Result<seq<Occurrence>>, image: string)
    requires '/' !in image
    ensures GetOccurrences(fetch, image) == Failure(MalformedMessage(image))
  {
    SplitSingleSegment(image);
  }

  /** A single listed pod gives a map with one key. */
  lemma SinglePodMap(pod: Pod)
    ensures PodsToImages([pod]) == map[pod.name := ContainerImages(pod)]
  {
    assert [pod][..0] == [];
  }

  /** The policy calls of a map holding one pod are that pod's call, if its images violate. */
  lemma SinglePodCalls(policy: ImageSecurityPolicy, pod: string, images: seq<string>,
                       retrieve: string -> Result<seq<Occurrence>>,
                       annotate: (string, string, string) -> Option<string>)
    ensures var podsToImages := map[pod := images];
      PolicyCalls(policy, podsToImages, podsToImages.Keys, retrieve, annotate) ==
      if SomeImageViolates(retrieve, policy.maximumSeverity, images) then {ViolationCall(annotate, pod, policy.namespace)} else {}
  {
  }

  /** One policy whose namespace lists a single pod annotates that pod iff its images violate. */
  lemma SinglePodPolicy(policy: ImageSecurityPolicy, pod: Pod, listPods: string -> Result<seq<Pod>>,
                        retrieve: string -> Result<seq<Occurrence>>,
                        annotate: (string, string, string) -> Option<string>)
    requires listPods(policy.namespace) == Success([pod])
    ensures FirstListFailure([policy], listPods) == 1
    ensures CallsUpTo([policy], 1, listPods, retrieve, annotate) ==
      if SomeImageViolates(retrieve, policy.maximumSeverity, ContainerImages(pod))
      then {ViolationCall(annotate, pod.name, policy.namespace)} else {}
  {
    assert [policy][1..] == [];
    SinglePodMap(pod);
    SinglePodCalls(policy, pod.name, ContainerImages(pod), retrieve, annotate);
  }

  /**
   * One HIGH policy on "default", whose only pod "pod-a" runs one image with a CRITICAL
   * finding: "pod-a" is annotated and nothing else is.
   */
  lemma ScenarioCriticalFinding(listPods: string -> Result<seq<Pod>>, retrieve: string -> Result<seq<Occurrence>>,
                                annotate: (string, string, string) -> Option<string>, image: string)
    requires listPods("default") == Success([Pod("pod-a", [], [image])])
    requires retrieve(image) == Success([Occurrence("CVE-1", "CRITICAL")])
    ensures var iprs := [ImageSecurityPolicy("default", "HIGH")];
      && FirstListFailure(iprs, listPods) == 1
      && CallsUpTo(iprs, 1, listPods, retrieve, annotate) == {ViolationCall(annotate, "pod-a", "default")}
  {
    var pod := Pod("pod-a", [], [image]);
    SevGEOnLevels("CRITICAL", "HIGH");
    assert ContainerImages(pod) == [image];
    SomeImageViolatesIff(retrieve, "HIGH", [image]);
    assert ImageViolates(retrieve, "HIGH", image);
    SinglePodPolicy(ImageSecurityPolicy("default", "HIGH"), pod, listPods, retrieve, annotate);
  }

  /** The same cluster with only a LOW finding: no annotation call is made. */
  lemma ScenarioLowFinding(listPods: string -> Result<seq<Pod>>, retrieve: string -> Result<seq<Occurrence>>,
                           annotate: (string, string, string) -> Option<string>, image: string)
    requires listPods("default") == Success([Pod("pod-a", [], [image])])
    requires retrieve(image) == Success([Occurrence("CVE-2", "LOW")])
    ensures var iprs := [ImageSecurityPolicy("default", "HIGH")];
      && FirstListFailure(iprs, listPods) == 1
      && CallsUpTo(iprs, 1, listPods, retrieve, annotate) == {}
  {
    var pod := Pod("pod-a", [], [image]);
    SevGEOnLevels("LOW", "HIGH");
    assert ContainerImages(pod) == [image];
    assert Violations([Occurrence("CVE-2", "LOW")], "HIGH") == [];
    SomeImageViolatesIff(retrieve, "HIGH", [image]);
    SinglePodPolicy(ImageSecurityPolicy("default", "HIGH"), pod, listPods, retrieve, annotate);
  }

  /** The reference "gcr.io/proj/app:1" is queried at project "proj", under its own name in the filter. */
  lemma ScenarioImageQuery(image: string)
    requires image == "gcr.io/proj/app:1"
    ensures OccurrencesQuery(image) ==
      Success(OccurrencesRequest("v1alpha1/projects/" + "proj" + "/occurrences", "resourceUrl=\"https://" + image + "\""))
  {
    assert !(HttpsPrefix <= image) by {
      assert HttpsPrefix[0] != image[0];
    }
    assert image == "gcr.io" + "/" + "proj" + "/" + "app:1";
    QueryOfWellFormedImage(image, "gcr.io", "proj", "app:1");
  }

  /**
   * The critical-finding scenario run through `getOccurrences`: the pod runs
   * "gcr.io/proj/app:1" and the service answers the request for it with a CRITICAL finding.
   */
  lemma ScenarioConcreteImage(listPods: string -> Result<seq<Pod>>, fetch: OccurrencesRequest -> Result<seq<Occurrence>>,
                              annotate: (string, string, string) -> Option<string>, image: string)
    requires image == "gcr.io/proj/app:1"
    requires listPods("default") == Success([Pod("pod-a", [], [image])])
    requires fetch(OccurrencesRequest("v1alpha1/projects/" + "proj" + "/occurrences", "resourceUrl=\"https://" + image + "\"")) ==
      Success([Occurrence("CVE-1", "CRITICAL")])
    ensures var iprs := [ImageSecurityPolicy("default", "HIGH")];
      && FirstListFailure(iprs, listPods) == 1
      && CallsUpTo(iprs, 1, listPods, OccurrencesOf(fetch), annotate) == {ViolationCall(annotate, "pod-a", "default")}
  {
    ScenarioImageQuery(image);
    assert OccurrencesOf(fetch)(image) == Success([Occurrence("CVE-1", "CRITICAL")]);
    ScenarioCriticalFinding(listPods, OccurrencesOf(fetch), annotate, image);
  }

  /**
   * "pod-a" runs an image whose occurrences cannot be retrieved before one with a
   * CRITICAL finding: the first is skipped and the pod is still annotated.
   */
  lemma ScenarioPartialFailure(listPods: string -> Result<seq<Pod>>, retrieve: string -> Result<seq<Occurrence>>,
                               annotate: (string, string, string) -> Option<string>, bad: string, image: string)
    requires listPods("default") == Success([Pod("pod-a", [bad], [image])])
    requires retrieve(bad).Failure?
    requires retrieve(image) == Success([Occurrence("CVE-1", "CRITICAL")])
    ensures var iprs := [ImageSecurityPolicy("default", "HIGH")];
      && FirstListFailure(iprs, listPods) == 1
      && CallsUpTo(iprs, 1, listPods, retrieve, annotate) == {ViolationCall(annotate, "pod-a", "default")}
  {
    var pod := Pod("pod-a", [bad], [image]);
    SevGEOnLevels("CRITICAL", "HIGH");
    assert ContainerImages(pod) == [bad, image];
    assert [bad, image][1] == image;
    SomeImageViolatesIff(retrieve, "HIGH", [bad, image]);
    assert ImageViolates(retrieve, "HIGH", image);
    SinglePodPolicy(ImageSecurityPolicy("default", "HIGH"), pod, listPods, retrieve, annotate);
  }
}
