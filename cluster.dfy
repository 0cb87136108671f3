/**
 * The cluster objects the two orchestration drafts read: image security
 * policies and pods, with the two ways the drafts collect a namespace's images.
 */
module Cluster {

  /** An ImageSecurityPolicy: its namespace and `spec.packageVulnerabilityRequirements.maximumSeverity`. */
  datatype ImageSecurityPolicy = ImageSecurityPolicy(namespace: string, maximumSeverity: string)

  /** A pod: its name and the images of its init containers and of its containers, in spec order. */
  datatype Pod = Pod(name: string, initImages: seq<string>, images: seq<string>)

  /** The images one pod runs: its init containers' images, then its containers' images. */
  function ContainerImages(pod: Pod): seq<string> {
    pod.initImages + pod.images
  }

  /** The number of containers (init and regular) of all pods together. */
  function ContainerCount(pods: seq<Pod>): nat {
    if pods == [] then 0 else ContainerCount(pods[..|pods| - 1]) + |pods[|pods| - 1].initImages| + |pods[|pods| - 1].images|
  }

  /** The pod-name-to-images map, filled pod by pod; a later pod with the same name overwrites an earlier one. */
  function PodsToImages(pods: seq<Pod>): map<string, seq<string>> {
    if pods == [] then map[]
    else
      var last := pods[|pods| - 1];
      PodsToImages(pods[..|pods| - 1])[last.name := ContainerImages(last)]
  }

  /** The flat list of images: each pod's images in pod order, duplicates kept. */
  function FlatImages(pods: seq<Pod>): seq<string> {
    if pods == [] then [] else FlatImages(pods[..|pods| - 1]) + ContainerImages(pods[|pods| - 1])
  }

  /** No two pods share a name, as within one Kubernetes namespace. */
  predicate UniqueNames(pods: seq<Pod>) {
    forall i, j :: 0 <= i < j < |pods| ==> pods[i].name != pods[j].name
  }

  /** The map has one key per pod name. */
  lemma {:induction false} PodsToImagesKeys(pods: seq<Pod>)
    ensures PodsToImages(pods).Keys == set p | p in pods :: p.name
  {
    if pods != [] {
      var init := pods[..|pods| - 1];
      PodsToImagesKeys(init);
      assert pods == init + [pods[|pods| - 1]];
    }
  }

  /** A pod that no later pod shadows maps to its own init images followed by its container images. */
  lemma {:induction false} PodsToImagesValue(pods: seq<Pod>, i: nat)
    requires i < |pods|
    requires forall j :: i < j < |pods| ==> pods[j].name != pods[i].name
    ensures pods[i].name in PodsToImages(pods)
    ensures PodsToImages(pods)[pods[i].name] == pods[i].initImages + pods[i].images
  {
    if i < |pods| - 1 {
      PodsToImagesValue(pods[..|pods| - 1], i);
    }
  }

  /** The flat list holds one entry per container. */
  lemma {:induction false} FlatImagesLength(pods: seq<Pod>)
    ensures |FlatImages(pods)| == ContainerCount(pods)
  {
    if pods != [] {
      FlatImagesLength(pods[..|pods| - 1]);
    }
  }

  /** The flat list of a concatenation is the concatenation of the flat lists. */
  lemma {:induction false} FlatImagesConcat(a: seq<Pod>, b: seq<Pod>)
    ensures FlatImages(a + b) == FlatImages(a) + FlatImages(b)
  {
    if b == [] {
      assert a + b == a;
    } else {
      assert (a + b)[..|a + b| - 1] == a + b[..|b| - 1];
      FlatImagesConcat(a, b[..|b| - 1]);
    }
  }

  /** An image is in the flat list exactly when some pod runs it. */
  lemma {:induction false} FlatImagesMembers(pods: seq<Pod>, image: string)
    ensures image in FlatImages(pods) <==> exists i :: 0 <= i < |pods| && image in ContainerImages(pods[i])
  {
    if pods != [] {
      var init := pods[..|pods| - 1];
      FlatImagesMembers(init, image);
      if image in ContainerImages(pods[|pods| - 1]) {
        assert image in FlatImages(pods);
      }
      assert forall i :: 0 <= i < |init| ==> init[i] == pods[i];
    }
  }

  /**
   * With unique pod names the two drafts see the same images: an image is in the
   * flat list exactly when it is in the list of some key of the map.
   */
  lemma FlatImagesMatchMap(pods: seq<Pod>, image: string)
    requires UniqueNames(pods)
    ensures image in FlatImages(pods) <==>
      exists name :: name in PodsToImages(pods) && image in PodsToImages(pods)[name]
  {
    var m := PodsToImages(pods);
    FlatImagesMembers(pods, image);
    if image in FlatImages(pods) {
      var i :| 0 <= i < |pods| && image in ContainerImages(pods[i]);
      PodsToImagesValue(pods, i);
    }
    if exists name :: name in m && image in m[name] {
      var name :| name in m && image in m[name];
      PodsToImagesKeys(pods);
      var i :| 0 <= i < |pods| && pods[i].name == name;
      PodsToImagesValue(pods, i);
    }
  }
}
