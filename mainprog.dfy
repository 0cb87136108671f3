/**
 * The strict orchestration draft of main.go: policies, then each policy's
 * namespace, then one flat list of its images; the first failure ends the run and
 * nothing is annotated.
 */
module MainProgram {
  import opened Results
  import opened Occurrences
  import opened ImageRef
  import opened Cluster

  /** The wrapped error `execute` returns when the policies cannot be listed. */
  function PolicyListError(e: string): string {
    "error getting image policy requirements: " + e
  }

  /** The wrapped error `execute` returns for the first image whose occurrences cannot be retrieved. */
  function OccurrencesError(e: string): string {
    "couldn't get occurrences: " + e
  }

  /** The filter this draft sends: package vulnerabilities of the image, taken as it is. */
  function ResourceFilter(image: string): string {
    "kind=\"PACKAGE_VULNERABILITY\" AND resourceUrl=\"" + image + "\""
  }

  /** The request `getOccurrences` would send for an image, or the malformed-image error. */
  function OccurrencesQuery(image: string): Result<OccurrencesRequest> {
    BuildRequest(image, ResourceFilter(image))
  }


  /** `getOccurrences`: validate and build the request, then ask the occurrence service `fetch`. */
  function GetOccurrences(fetch: OccurrencesRequest -> Result<seq<Occurrence>>, image: string): Result<seq<Occurrence>> {
    match OccurrencesQuery(image)
    case Failure(e) => Failure(e)
    case Success(request) => fetch(request)
  }

  /** `getOccurrences` as a function of the image, for a given occurrence service. */
  function OccurrencesOf(fetch: OccurrencesRequest -> Result<seq<Occurrence>>): string -> Result<seq<Occurrence>> {
    image => GetOccurrences(fetch, image)
  }

  /*
   * From here on, `retrieve` is `getOccurrences` taken as a function of the image; a
   * whole run passes `OccurrencesOf(fetch)`.
   */

  /** What a run of `execute` shows: the error it returns and the images it printed as vulnerable, in order. */
  datatype RunOutcome = RunOutcome(err: Option<string>, reported: seq<string>)

  /** Images printed before the rest of the run. */
  function Prepend(reported: seq<string>, rest: RunOutcome): RunOutcome {
    RunOutcome(rest.err, reported + rest.reported)
  }

  /** The images printed for one successfully retrieved image. */
  function Reported(image: string, occs: seq<Occurrence>, maxSeverity: string): seq<string> {
    if Violations(occs, maxSeverity) != [] then [image] else []
  }

  /** The image loop of one policy: the first image whose occurrences fail stops it with that error. */
  function CheckImages(images: seq<string>, maxSeverity: string, retrieve: string -> Result<seq<Occurrence>>): RunOutcome {
    if images == [] then RunOutcome(None, [])
    else
      match retrieve(images[0])
      case Failure(e) => RunOutcome(Some(OccurrencesError(e)), [])
      case Success(occs) => Prepend(Reported(images[0], occs, maxSeverity), CheckImages(images[1..], maxSeverity, retrieve))
  }

  /** One policy: the listing error of its namespace, or the image loop over its pods' images. */
  function PolicyOutcome(ipr: ImageSecurityPolicy, listPods: string -> Result<seq<Pod>>,
                         retrieve: string -> Result<seq<Occurrence>>): RunOutcome
  {
    match listPods(ipr.namespace)
    case Failure(e) => RunOutcome(Some(e), [])
    case Success(pods) => CheckImages(FlatImages(pods), ipr.maximumSeverity, retrieve)
  }

  /** After one policy: stop on its error, otherwise go on with the remaining policies. */
  function AfterPolicy(outcome: RunOutcome, rest: seq<ImageSecurityPolicy>, listPods: string -> Result<seq<Pod>>,
                       retrieve: string -> Result<seq<Occurrence>>): RunOutcome
    decreases |rest| + 1, 0
  {
    if outcome.err.Some? then outcome else Prepend(outcome.reported, CheckPolicies(rest, listPods, retrieve))
  }

  /** The policy loop: the first policy that ends with an error stops the run. */
  function CheckPolicies(iprs: seq<ImageSecurityPolicy>, listPods: string -> Result<seq<Pod>>,
                         retrieve: string -> Result<seq<Occurrence>>): RunOutcome
    decreases |iprs|, 1
  {
    if iprs == [] then RunOutcome(None, [])
    else AfterPolicy(PolicyOutcome(iprs[0], listPods, retrieve), iprs[1..], listPods, retrieve)
  }

  /** A whole run of `execute`. */
  function Run(policies: Result<seq<ImageSecurityPolicy>>, listPods: string -> Result<seq<Pod>>,
               fetch: OccurrencesRequest -> Result<seq<Occurrence>>): RunOutcome {
    match policies
    case Failure(e) => RunOutcome(Some(PolicyListError(e)), [])
    case Success(iprs) => CheckPolicies(iprs, listPods, OccurrencesOf(fetch))
  }

  /**
   * `getImagesInNamespace` after the pods are listed: one flat list, pod by pod, init
   * containers' images before containers' images.
   */
  method GetImagesInNamespace(pods: seq<Pod>) returns (images: seq<string>)
    ensures images == FlatImages(pods)
  {
    images := [];
    for i := 0 to |pods|
      invariant images == FlatImages(pods[..i])
    {
      var pod := pods[i];
      ghost var before := images;
      for j := 0 to |pod.initImages|
        invariant images == before + pod.initImages[..j]
      {
        images := images + [pod.initImages[j]];
      }
      for j := 0 to |pod.images|
        invariant images == before + pod.initImages + pod.images[..j]
      {
        images := images + [pod.images[j]];
      }
      assert pod.initImages[..|pod.initImages|] == pod.initImages;
      assert pod.images[..|pod.images|] == pod.images;
      assert pods[..i + 1][..i] == pods[..i];
    }
    assert pods[..|pods|] == pods;
  }

  /**
   * The image loop of `execute` for one policy: print each vulnerable image, and stop
   * at the first image whose occurrences cannot be retrieved.
   */
  method CheckPolicyImages(images: seq<string>, maxSeverity: string, retrieve: string -> Result<seq<Occurrence>>)
    returns (err: Option<string>, reported: seq<string>)
    ensures RunOutcome(err, reported) == CheckImages(images, maxSeverity, retrieve)
  {
    reported := [];
    for j := 0 to |images|
      invariant CheckImages(images, maxSeverity, retrieve) == Prepend(reported, CheckImages(images[j..], maxSeverity, retrieve))
    {
      var image := images[j];
      assert images[j..][1..] == images[j + 1..];
      var occs := retrieve(image);
      if occs.Failure? {
        assert CheckImages(images[j..], maxSeverity, retrieve) == RunOutcome(Some(OccurrencesError(occs.error)), []);
        return Some(OccurrencesError(occs.error)), reported;
      }
      var filtered := FilterOccurrences(occs.value, maxSeverity);
      ghost var rest := CheckImages(images[j + 1..], maxSeverity, retrieve);
      assert CheckImages(images[j..], maxSeverity, retrieve) == Prepend(Reported(image, occs.value, maxSeverity), rest);
      assert Reported(image, occs.value, maxSeverity) == if |filtered| > 0 then [image] else [];
      if |filtered| > 0 {
        assert (reported + [image]) + rest.reported == reported + ([image] + rest.reported);
        reported := reported + [image];
      } else {
        assert [] + rest.reported == rest.reported;
      }
    }
    assert images[|images|..] == [];
    assert reported + [] == reported;
    return None, reported;
  }

  /** Printing two batches one after the other prints their concatenation. */
  lemma PrependTwice(first: seq<string>, second: seq<string>, rest: RunOutcome)
    ensures Prepend(first, Prepend(second, rest)) == Prepend(first + second, rest)
  {
    assert first + (second + rest.reported) == (first + second) + rest.reported;
  }

  /** The policy loop from policy `i` on is that policy's outcome followed by the rest. */
  lemma CheckPoliciesFrom(iprs: seq<ImageSecurityPolicy>, i: nat, listPods: string -> Result<seq<Pod>>,
                          retrieve: string -> Result<seq<Occurrence>>)
    requires i < |iprs|
    ensures CheckPolicies(iprs[i..], listPods, retrieve) ==
      AfterPolicy(PolicyOutcome(iprs[i], listPods, retrieve), iprs[i + 1..], listPods, retrieve)
  {
    assert iprs[i..][1..] == iprs[i + 1..];
  }

  /**
   * One turn of the policy loop of `execute`: list the namespace (`getImagesInNamespace`
   * returns the listing error as it is), then run the image loop over its images.
   */
  method CheckNamespace(ipr: ImageSecurityPolicy, listPods: string -> Result<seq<Pod>>,
                        retrieve: string -> Result<seq<Occurrence>>)
    returns (err: Option<string>, printed: seq<string>)
    ensures RunOutcome(err, printed) == PolicyOutcome(ipr, listPods, retrieve)
  {
    var pods := listPods(ipr.namespace);
    if pods.Failure? {
      return Some(pods.error), [];
    }
    var images := GetImagesInNamespace(pods.value);
    err, printed := CheckPolicyImages(images, ipr.maximumSeverity, retrieve);
  }

  /**
   * `execute`, with its collaborators as inputs: the policy listing, the pod listing
   * per namespace and the occurrence service. It returns its error and the images it
   * printed as vulnerable; it has no annotation collaborator at all.
   */
  method Execute(policies: Result<seq<ImageSecurityPolicy>>, listPods: string -> Result<seq<Pod>>,
                 fetch: OccurrencesRequest -> Result<seq<Occurrence>>)
    returns (err: Option<string>, reported: seq<string>)
    ensures RunOutcome(err, reported) == Run(policies, listPods, fetch)
  {
    if policies.Failure? {
      return Some(PolicyListError(policies.error)), [];
    }
    var iprs := policies.value;
    reported := [];
    for i := 0 to |iprs|
      invariant Run(policies, listPods, fetch) == Prepend(reported, CheckPolicies(iprs[i..], listPods, OccurrencesOf(fetch)))
    {
      CheckPoliciesFrom(iprs, i, listPods, OccurrencesOf(fetch));
      var failure, printed := CheckNamespace(iprs[i], listPods, OccurrencesOf(fetch));
      if failure.Some? {
        return failure, reported + printed;
      }
      PrependTwice(reported, printed, CheckPolicies(iprs[i + 1..], listPods, OccurrencesOf(fetch)));
      reported := reported + printed;
    }
    assert iprs[|iprs|..] == [];
    assert reported + [] == reported;
    return None, reported;
  }
}

/** What the strict draft promises, stated over the functions `Execute` is proved against. */
module MainProperties {
  import opened Results
  import opened Occurrences
  import opened ImageRef
  import opened Cluster
  import opened MainProgram

  /** The index of the first image whose occurrences cannot be retrieved, or the number of images. */
  function FirstFetchFailure(images: seq<string>, retrieve: string -> Result<seq<Occurrence>>): (k: nat)
    ensures k <= |images|
    ensures forall j :: 0 <= j < k ==> retrieve(images[j]).Success?
    ensures k < |images| ==> retrieve(images[k]).Failure?
  {
    if images == [] then 0
    else if retrieve(images[0]).Failure? then 0
    else 1 + FirstFetchFailure(images[1..], retrieve)
  }

  /**
   * A reference that reads `registry/project/rest` (after one "https://" is removed) is
   * queried at the project's occurrence path, with the unmodified reference in the filter.
   */
  lemma QueryOfWellFormedImage(image: string, registry: string, project: string, rest: string)
    requires TrimPrefix(image, HttpsPrefix) == registry + "/" + project + "/" + rest
    requires '/' !in registry && '/' !in project
    ensures OccurrencesQuery(image) ==
      Success(OccurrencesRequest("v1alpha1/projects/" + project + "/occurrences",
                                 "kind=\"PACKAGE_VULNERABILITY\" AND resourceUrl=\"" + image + "\""))
  {
    ProjectIsSecondSegment(image, registry, project, rest);
  }

  /** The images, in order, whose occurrences were retrieved and include one meeting the maximum severity. */
  function ViolatingImages(images: seq<string>, maxSeverity: string, retrieve: string -> Result<seq<Occurrence>>): seq<string> {
    if images == [] then []
    else
      var occs := retrieve(images[0]);
      (if occs.Success? && Violations(occs.value, maxSeverity) != [] then [images[0]] else []) +
      ViolatingImages(images[1..], maxSeverity, retrieve)
  }

  /** The vulnerable images of a non-empty prefix: the first image's verdict, then the rest of the prefix. */
  lemma ViolatingPrefix(images: seq<string>, k: nat, maxSeverity: string, retrieve: string -> Result<seq<Occurrence>>)
    requires 0 < k <= |images|
    ensures var occs := retrieve(images[0]);
      ViolatingImages(images[..k], maxSeverity, retrieve) ==
        (if occs.Success? && Violations(occs.value, maxSeverity) != [] then [images[0]] else []) +
        ViolatingImages(images[1..][..k - 1], maxSeverity, retrieve)
  {
    assert images[..k][1..] == images[1..][..k - 1];
    assert images[..k][0] == images[0];
  }

  /** The image loop over a list whose first image was retrieved: that image's verdict, then the rest. */
  lemma CheckImagesCons(images: seq<string>, maxSeverity: string, retrieve: string -> Result<seq<Occurrence>>)
    requires images != [] && retrieve(images[0]).Success?
    ensures CheckImages(images, maxSeverity, retrieve) ==
      Prepend(Reported(images[0], retrieve(images[0]).value, maxSeverity), CheckImages(images[1..], maxSeverity, retrieve))
    ensures FirstFetchFailure(images, retrieve) == 1 + FirstFetchFailure(images[1..], retrieve)
  {
  }

  /**
   * One policy's image loop prints exactly the vulnerable images before the first
   * image whose occurrences fail, and then stops with that image's wrapped error; it
   * returns no error only when every image was retrieved.
   */
  lemma {:induction false} CheckImagesStopsAtFirstError(images: seq<string>, maxSeverity: string,
                                                        retrieve: string -> Result<seq<Occurrence>>)
    ensures var k := FirstFetchFailure(images, retrieve);
      CheckImages(images, maxSeverity, retrieve) ==
        if k < |images| then RunOutcome(Some(OccurrencesError(retrieve(images[k]).error)), ViolatingImages(images[..k], maxSeverity, retrieve))
        else RunOutcome(None, ViolatingImages(images, maxSeverity, retrieve))
  {
    if images != [] {
      var head := retrieve(images[0]);
      if head.Success? {
        var tail := images[1..];
        var k := FirstFetchFailure(images, retrieve);
        CheckImagesCons(images, maxSeverity, retrieve);
        CheckImagesStopsAtFirstError(tail, maxSeverity, retrieve);
        var first := Reported(images[0], head.value, maxSeverity);
        assert first == if Violations(head.value, maxSeverity) != [] then [images[0]] else [];
        if k < |images| {
          assert tail[k - 1] == images[k];
          var stop := Some(OccurrencesError(retrieve(images[k]).error));
          var before := ViolatingImages(tail[..k - 1], maxSeverity, retrieve);
          assert CheckImages(tail, maxSeverity, retrieve) == RunOutcome(stop, before);
          ViolatingPrefix(images, k, maxSeverity, retrieve);
          assert ViolatingImages(images[..k], maxSeverity, retrieve) == first + before;
          assert CheckImages(images, maxSeverity, retrieve) == RunOutcome(stop, first + before);
        } else {
          var all := ViolatingImages(tail, maxSeverity, retrieve);
          assert CheckImages(tail, maxSeverity, retrieve) == RunOutcome(None, all);
          assert ViolatingImages(images, maxSeverity, retrieve) == first + all;
          assert CheckImages(images, maxSeverity, retrieve) == RunOutcome(None, first + all);
        }
      } else {
        assert images[..0] == [];
      }
    }
  }

  /** Every policy's namespace lists and every image of it is retrieved. */
  predicate AllRetrieved(iprs: seq<ImageSecurityPolicy>, listPods: string -> Result<seq<Pod>>,
                         retrieve: string -> Result<seq<Occurrence>>)
  {
    forall i :: 0 <= i < |iprs| ==>
      && listPods(iprs[i].namespace).Success?
      && var images := FlatImages(listPods(iprs[i].namespace).value);
         FirstFetchFailure(images, retrieve) == |images|
  }

  /** The vulnerable images of all policies, policy by policy. */
  function AllViolatingImages(iprs: seq<ImageSecurityPolicy>, listPods: string -> Result<seq<Pod>>,
                              retrieve: string -> Result<seq<Occurrence>>): seq<string>
  {
    if iprs == [] then []
    else
      match listPods(iprs[0].namespace)
      case Failure(_) => []
      case Success(pods) => ViolatingImages(FlatImages(pods), iprs[0].maximumSeverity, retrieve) + AllViolatingImages(iprs[1..], listPods, retrieve)
  }

  /**
   * The policy loop returns no error exactly when every namespace lists and every image
   * is retrieved, and then it has printed every vulnerable image of every policy.
   */
  lemma {:induction false} CheckPoliciesSucceedsIff(iprs: seq<ImageSecurityPolicy>, listPods: string -> Result<seq<Pod>>,
                                                    retrieve: string -> Result<seq<Occurrence>>)
    ensures CheckPolicies(iprs, listPods, retrieve).err.None? <==> AllRetrieved(iprs, listPods, retrieve)
    ensures CheckPolicies(iprs, listPods, retrieve).err.None? ==>
      CheckPolicies(iprs, listPods, retrieve).reported == AllViolatingImages(iprs, listPods, retrieve)
  {
    if iprs != [] {
      CheckPoliciesSucceedsIff(iprs[1..], listPods, retrieve);
      assert forall i :: 1 <= i < |iprs| ==> iprs[1..][i - 1] == iprs[i];
      var pods := listPods(iprs[0].namespace);
      if pods.Success? {
        CheckImagesStopsAtFirstError(FlatImages(pods.value), iprs[0].maximumSeverity, retrieve);
        if AllRetrieved(iprs[1..], listPods, retrieve) && FirstFetchFailure(FlatImages(pods.value), retrieve) == |FlatImages(pods.value)| {
          assert AllRetrieved(iprs, listPods, retrieve) by {
            forall i | 0 <= i < |iprs|
              ensures listPods(iprs[i].namespace).Success? &&
                FirstFetchFailure(FlatImages(listPods(iprs[i].namespace).value), retrieve) == |FlatImages(listPods(iprs[i].namespace).value)|
            {
              if i > 0 {
                assert iprs[1..][i - 1] == iprs[i];
              }
            }
          }
        }
      } else {
        assert !AllRetrieved(iprs, listPods, retrieve);
      }
    }
  }

  /**
   * One policy's outcome: the listing error as it is and nothing printed, or the image
   * loop's outcome, which stops at the first image whose occurrences fail.
   */
  lemma PolicyOutcomeCases(ipr: ImageSecurityPolicy, listPods: string -> Result<seq<Pod>>,
                           retrieve: string -> Result<seq<Occurrence>>)
    ensures listPods(ipr.namespace).Failure? ==>
      PolicyOutcome(ipr, listPods, retrieve) == RunOutcome(Some(listPods(ipr.namespace).error), [])
    ensures listPods(ipr.namespace).Success? ==>
      var images := FlatImages(listPods(ipr.namespace).value);
      var k := FirstFetchFailure(images, retrieve);
      PolicyOutcome(ipr, listPods, retrieve) ==
        if k < |images| then RunOutcome(Some(OccurrencesError(retrieve(images[k]).error)), ViolatingImages(images[..k], ipr.maximumSeverity, retrieve))
        else RunOutcome(None, ViolatingImages(images, ipr.maximumSeverity, retrieve))
  {
    if listPods(ipr.namespace).Success? {
      CheckImagesStopsAtFirstError(FlatImages(listPods(ipr.namespace).value), ipr.maximumSeverity, retrieve);
    }
  }

  /** The index of the first policy that ends with an error, or the number of policies. */
  function FirstPolicyFailure(iprs: seq<ImageSecurityPolicy>, listPods: string -> Result<seq<Pod>>,
                              retrieve: string -> Result<seq<Occurrence>>): (k: nat)
    ensures k <= |iprs|
    ensures forall j :: 0 <= j < k ==> PolicyOutcome(iprs[j], listPods, retrieve).err.None?
    ensures k < |iprs| ==> PolicyOutcome(iprs[k], listPods, retrieve).err.Some?
  {
    if iprs == [] then 0
    else if PolicyOutcome(iprs[0], listPods, retrieve).err.Some? then 0
    else 1 + FirstPolicyFailure(iprs[1..], listPods, retrieve)
  }

  /** A policy that ends without an error has listed its namespace and printed all its vulnerable images. */
  lemma PolicySucceeded(ipr: ImageSecurityPolicy, listPods: string -> Result<seq<Pod>>,
                        retrieve: string -> Result<seq<Occurrence>>)
    requires PolicyOutcome(ipr, listPods, retrieve).err.None?
    ensures listPods(ipr.namespace).Success?
    ensures PolicyOutcome(ipr, listPods, retrieve).reported ==
      ViolatingImages(FlatImages(listPods(ipr.namespace).value), ipr.maximumSeverity, retrieve)
  {
    PolicyOutcomeCases(ipr, listPods, retrieve);
  }

  /** The vulnerable images of a non-empty prefix of the policies: the first policy's, then the rest of the prefix. */
  lemma AllViolatingPrefix(iprs: seq<ImageSecurityPolicy>, k: nat, listPods: string -> Result<seq<Pod>>,
                           retrieve: string -> Result<seq<Occurrence>>)
    requires 0 < k <= |iprs| && listPods(iprs[0].namespace).Success?
    ensures AllViolatingImages(iprs[..k], listPods, retrieve) ==
      ViolatingImages(FlatImages(listPods(iprs[0].namespace).value), iprs[0].maximumSeverity, retrieve) +
      AllViolatingImages(iprs[1..][..k - 1], listPods, retrieve)
  {
    assert iprs[..k][0] == iprs[0];
    assert iprs[..k][1..] == iprs[1..][..k - 1];
  }

  /** What the policy loop returns when it stops at policy `k`. */
  function StoppedAt(iprs: seq<ImageSecurityPolicy>, k: nat, listPods: string -> Result<seq<Pod>>,
                     retrieve: string -> Result<seq<Occurrence>>): RunOutcome
    requires k <= |iprs|
  {
    if k < |iprs| then
      RunOutcome(PolicyOutcome(iprs[k], listPods, retrieve).err,
                 AllViolatingImages(iprs[..k], listPods, retrieve) + PolicyOutcome(iprs[k], listPods, retrieve).reported)
    else RunOutcome(None, AllViolatingImages(iprs, listPods, retrieve))
  }

  /** Stopping at a later policy, after one that ended without an error, prepends that policy's images. */
  lemma StoppedAtConsFailing(iprs: seq<ImageSecurityPolicy>, k: nat, listPods: string -> Result<seq<Pod>>,
                             retrieve: string -> Result<seq<Occurrence>>, first: seq<string>)
    requires 0 < k < |iprs| && listPods(iprs[0].namespace).Success?
    requires first == ViolatingImages(FlatImages(listPods(iprs[0].namespace).value), iprs[0].maximumSeverity, retrieve)
    ensures StoppedAt(iprs, k, listPods, retrieve) == Prepend(first, StoppedAt(iprs[1..], k - 1, listPods, retrieve))
  {
    var tail := iprs[1..];
    assert tail[k - 1] == iprs[k];
    var failing := PolicyOutcome(iprs[k], listPods, retrieve);
    AllViolatingPrefix(iprs, k, listPods, retrieve);
    var before := AllViolatingImages(tail[..k - 1], listPods, retrieve);
    assert StoppedAt(tail, k - 1, listPods, retrieve) == RunOutcome(failing.err, before + failing.reported);
    assert StoppedAt(iprs, k, listPods, retrieve) == RunOutcome(failing.err, (first + before) + failing.reported);
    assert first + (before + failing.reported) == (first + before) + failing.reported;
  }

  /** Running through every policy, after a first one that ended without an error, prepends that policy's images. */
  lemma StoppedAtConsAll(iprs: seq<ImageSecurityPolicy>, listPods: string -> Result<seq<Pod>>,
                         retrieve: string -> Result<seq<Occurrence>>, first: seq<string>)
    requires 0 < |iprs| && listPods(iprs[0].namespace).Success?
    requires first == ViolatingImages(FlatImages(listPods(iprs[0].namespace).value), iprs[0].maximumSeverity, retrieve)
    ensures StoppedAt(iprs, |iprs|, listPods, retrieve) == Prepend(first, StoppedAt(iprs[1..], |iprs| - 1, listPods, retrieve))
  {
    assert AllViolatingImages(iprs, listPods, retrieve) == first + AllViolatingImages(iprs[1..], listPods, retrieve);
  }

  /** A policy that ends without an error prepends its vulnerable images to where the rest stops. */
  lemma StoppedAtCons(iprs: seq<ImageSecurityPolicy>, k: nat, listPods: string -> Result<seq<Pod>>,
                      retrieve: string -> Result<seq<Occurrence>>)
    requires 0 < k <= |iprs| && PolicyOutcome(iprs[0], listPods, retrieve).err.None?
    ensures StoppedAt(iprs, k, listPods, retrieve) ==
      Prepend(PolicyOutcome(iprs[0], listPods, retrieve).reported, StoppedAt(iprs[1..], k - 1, listPods, retrieve))
  {
    PolicySucceeded(iprs[0], listPods, retrieve);
    var first := PolicyOutcome(iprs[0], listPods, retrieve).reported;
    if k < |iprs| {
      StoppedAtConsFailing(iprs, k, listPods, retrieve, first);
    } else {
      StoppedAtConsAll(iprs, listPods, retrieve, first);
    }
  }

  /**
   * The policy loop stops at the first policy that ends with an error and returns that
   * error; it has printed every vulnerable image of the earlier policies and then what
   * the failing policy printed, and no later policy contributes anything.
   */
  lemma {:induction false} CheckPoliciesStopsAtFirstError(iprs: seq<ImageSecurityPolicy>, listPods: string -> Result<seq<Pod>>,
                                                          retrieve: string -> Result<seq<Occurrence>>)
    ensures var k := FirstPolicyFailure(iprs, listPods, retrieve);
      CheckPolicies(iprs, listPods, retrieve) ==
        if k < |iprs| then
          RunOutcome(PolicyOutcome(iprs[k], listPods, retrieve).err,
                     AllViolatingImages(iprs[..k], listPods, retrieve) + PolicyOutcome(iprs[k], listPods, retrieve).reported)
        else RunOutcome(None, AllViolatingImages(iprs, listPods, retrieve))
  {
    var k := FirstPolicyFailure(iprs, listPods, retrieve);
    assert CheckPolicies(iprs, listPods, retrieve) == StoppedAt(iprs, k, listPods, retrieve) by {
      if iprs != [] {
        var first := PolicyOutcome(iprs[0], listPods, retrieve);
        if first.err.Some? {
          assert iprs[..0] == [];
          assert [] + first.reported == first.reported;
        } else {
          var tail := iprs[1..];
          CheckPoliciesStopsAtFirstError(tail, listPods, retrieve);
          assert k == 1 + FirstPolicyFailure(tail, listPods, retrieve);
          assert CheckPolicies(tail, listPods, retrieve) == StoppedAt(tail, k - 1, listPods, retrieve);
          StoppedAtCons(iprs, k, listPods, retrieve);
        }
      }
    }
  }

  /**
   * A whole run after the policies are listed ends with the first failing policy's
   * error (its namespace's listing error, or its first image's wrapped occurrence
   * error), having printed the vulnerable images up to that point.
   */
  lemma RunStopsAtFirstError(iprs: seq<ImageSecurityPolicy>, listPods: string -> Result<seq<Pod>>,
                             fetch: OccurrencesRequest -> Result<seq<Occurrence>>)
    ensures var retrieve := OccurrencesOf(fetch);
      var k := FirstPolicyFailure(iprs, listPods, retrieve);
      Run(Success(iprs), listPods, fetch) ==
        if k < |iprs| then
          RunOutcome(PolicyOutcome(iprs[k], listPods, retrieve).err,
                     AllViolatingImages(iprs[..k], listPods, retrieve) + PolicyOutcome(iprs[k], listPods, retrieve).reported)
        else RunOutcome(None, AllViolatingImages(iprs, listPods, retrieve))
  {
    CheckPoliciesStopsAtFirstError(iprs, listPods, OccurrencesOf(fetch));
  }

  /**
   * A whole run: a failed policy listing is reported wrapped and nothing is printed;
   * otherwise the run succeeds exactly when everything was retrieved.
   */
  lemma RunSucceedsIff(policies: Result<seq<ImageSecurityPolicy>>, listPods: string -> Result<seq<Pod>>,
                       fetch: OccurrencesRequest -> Result<seq<Occurrence>>)
    ensures policies.Failure? ==> Run(policies, listPods, fetch) == RunOutcome(Some(PolicyListError(policies.error)), [])
    ensures policies.Success? ==>
      (Run(policies, listPods, fetch).err.None? <==> AllRetrieved(policies.value, listPods, OccurrencesOf(fetch)))
  {
    if policies.Success? {
      CheckPoliciesSucceedsIff(policies.value, listPods, OccurrencesOf(fetch));
    }
  }

  /**
   * The strict draft stops at an image the tolerant one would skip: when the first
   * policy's first image cannot be retrieved, the run ends with that wrapped error and
   * prints nothing.
   */
  lemma FirstImageFailureAborts(iprs: seq<ImageSecurityPolicy>, listPods: string -> Result<seq<Pod>>,
                                retrieve: string -> Result<seq<Occurrence>>)
    requires iprs != [] && listPods(iprs[0].namespace).Success?
    requires FlatImages(listPods(iprs[0].namespace).value) != []
    requires retrieve(FlatImages(listPods(iprs[0].namespace).value)[0]).Failure?
    ensures CheckPolicies(iprs, listPods, retrieve) ==
      RunOutcome(Some(OccurrencesError(retrieve(FlatImages(listPods(iprs[0].namespace).value)[0]).error)), [])
  {
  }
}
