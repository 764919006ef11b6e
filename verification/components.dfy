/** The component table, the values generated for each component, and where their tags live. */
module Components {
  import opened Text
  import opened Values

  datatype Component =
    | Traefik | IngressNginx | CoreDNS | DnsNodeCache | MetricsServer | Flannel
    | CanalCalico | CanalFlannel | ClusterAutoscaler | SnapshotController

  function Name(c: Component): string {
    match c
    case Traefik => "rke2-traefik"
    case IngressNginx => "rke2-ingress-nginx"
    case CoreDNS => "rke2-coredns"
    case DnsNodeCache => "rke2-dns-node-cache"
    case MetricsServer => "rke2-metrics-server"
    case Flannel => "rke2-flannel"
    case CanalCalico => "rke2-canal-calico"
    case CanalFlannel => "rke2-canal-flannel"
    case ClusterAutoscaler => "rke2-coredns-cluster-autoscaler"
    case SnapshotController => "rke2-snapshot-controller"
  }

  function Repository(c: Component): string {
    match c
    case Traefik => "rancher/hardened-traefik"
    case IngressNginx => "rancher/nginx-ingress-controller"
    case CoreDNS => "rancher/hardened-coredns"
    case DnsNodeCache => "rancher/hardened-dns-node-cache"
    case MetricsServer => "rancher/hardened-k8s-metrics-server"
    case Flannel => "rancher/hardened-flannel"
    case CanalCalico => "rancher/hardened-calico"
    case CanalFlannel => "rancher/hardened-flannel"
    case ClusterAutoscaler => "rancher/hardened-cluster-autoscaler"
    case SnapshotController => "rancher/hardened-snapshot-controller"
  }

  /** The HelmChartConfig a component's values are written to; several components share one. */
  function Chart(c: Component): string {
    match c
    case DnsNodeCache => "rke2-coredns"
    case ClusterAutoscaler => "rke2-coredns"
    case CanalCalico => "rke2-canal"
    case CanalFlannel => "rke2-canal"
    case _ => Name(c)
  }

  // ---------- generated values ----------

  function Image(tagKey: string, repository: string, tag: string): Tree {
    Map(map["repository" := Str(repository), tagKey := Str(tag)])
  }

  function Under(key: string, n: Node): Tree { Map(map[key := n]) }

  /** renderValuesContent, as a tree. */
  function Generate(c: Component, repository: string, tag: string): Tree {
    var image := Image("tag", repository, tag);
    match c
    case IngressNginx => Under("controller", Under("image", Image("primeTag", repository, tag)))
    case CanalCalico =>
      Under("calico", Map(map["cniImage" := image, "nodeImage" := image,
                              "flexvolImage" := image, "kubeControllerImage" := image]))
    case CanalFlannel => Under("flannel", Under("image", image))
    case Flannel => Under("flannel", Under("image", image))
    case SnapshotController => Under("controller", Under("image", image))
    case ClusterAutoscaler => Under("autoscaler", Under("image", image))
    case _ => Under("image", image)
  }

  /** The first path segment a component's values live under. */
  function TopKey(c: Component): string {
    match c
    case IngressNginx => "controller"
    case SnapshotController => "controller"
    case CanalCalico => "calico"
    case CanalFlannel => "flannel"
    case Flannel => "flannel"
    case ClusterAutoscaler => "autoscaler"
    case _ => "image"
  }

  /** The maps that hold an image, in the order ImageTagPaths sorts them. */
  function ImagePaths(c: Component): (paths: seq<Path>)
    ensures |paths| >= 1
    ensures forall p | p in paths :: p != [] && p[0] == TopKey(c)
  {
    match c
    case CanalCalico => [["calico", "cniImage"], ["calico", "flexvolImage"],
                         ["calico", "kubeControllerImage"], ["calico", "nodeImage"]]
    case CanalFlannel => [["flannel", "image"]]
    case Flannel => [["flannel", "image"]]
    case IngressNginx => [["controller", "image"]]
    case SnapshotController => [["controller", "image"]]
    case ClusterAutoscaler => [["autoscaler", "image"]]
    case _ => [["image"]]
  }

  function TagKey(c: Component): string { if c.IngressNginx? then "primeTag" else "tag" }

  predicate IsTagPath(c: Component, p: Path) {
    p != [] && p[|p| - 1] == TagKey(c) && p[..|p| - 1] in ImagePaths(c)
  }

  predicate IsRepositoryPath(c: Component, p: Path) {
    p != [] && p[|p| - 1] == "repository" && p[..|p| - 1] in ImagePaths(c)
  }

  /** A value n with maps around it, one for each key of the path. */
  function Nest(p: Path, n: Node): Node {
    if p == [] then n else Under(p[0], Nest(p[1..], n))
  }

  lemma {:induction false} NestAt(p: Path, n: Tree, q: Path)
    ensures LeafAt(Nest(p, n), q) <==> p <= q && LeafAt(n, q[|p|..])
    ensures p <= q ==> At(Nest(p, n), q) == At(n, q[|p|..])
  {
    if p == [] {
      assert q[0..] == q;
    } else if q != [] {
      AtHead(Nest(p, n), q);
      NestAt(p[1..], n, q[1..]);
      assert p <= q <==> p[0] == q[0] && p[1..] <= q[1..] by {
        assert p == [p[0]] + p[1..] && q == [q[0]] + q[1..];
      }
      assert p <= q ==> q[1..][|p[1..]|..] == q[|p|..];
    }
  }

  lemma ImageLeaf(key: string, repository: string, tag: string, p: Path)
    requires key != "repository"
    ensures LeafAt(Image(key, repository, tag), p) <==> p == [key] || p == ["repository"]
    ensures p == [key] ==> At(Image(key, repository, tag), p) == Some(Str(tag))
    ensures p == ["repository"] ==> At(Image(key, repository, tag), p) == Some(Str(repository))
  {
    if p != [] {
      AtHead(Image(key, repository, tag), p);
      assert p == [p[0]] + p[1..];
    }
  }

  /** The leaves of one generated image, wherever it is nested. */
  lemma NestedImage(ip: Path, key: string, repository: string, tag: string, p: Path)
    requires key != "repository"
    ensures LeafAt(Nest(ip, Image(key, repository, tag)), p) <==>
            p != [] && p[..|p| - 1] == ip && (p[|p| - 1] == key || p[|p| - 1] == "repository")
    ensures p == ip + [key] ==> At(Nest(ip, Image(key, repository, tag)), p) == Some(Str(tag))
    ensures p == ip + ["repository"] ==> At(Nest(ip, Image(key, repository, tag)), p) == Some(Str(repository))
  {
    NestAt(ip, Image(key, repository, tag), p);
    if ip <= p {
      ImageLeaf(key, repository, tag, p[|ip|..]);
      assert p == ip + p[|ip|..];
    }
    if p != [] && p[..|p| - 1] == ip {
      assert p[|ip|..] == [p[|p| - 1]];
      assert p == ip + [p[|p| - 1]];
    }
  }

  /** All components but rke2-canal-calico write a single image. */
  lemma SingleImage(c: Component, repository: string, tag: string)
    requires !c.CanalCalico?
    ensures |ImagePaths(c)| == 1
    ensures Generate(c, repository, tag) == Nest(ImagePaths(c)[0], Image(TagKey(c), repository, tag))
  {
    var image := Image(TagKey(c), repository, tag);
    var ip := ImagePaths(c)[0];
    assert Nest(ip, image) == Under(ip[0], Nest(ip[1..], image));
    if |ip| == 1 {
      assert ip[1..] == [];
    } else {
      assert ip[1..][1..] == [];
      assert Nest(ip[1..], image) == Under(ip[1], Nest(ip[1..][1..], image));
    }
  }

  const CALICO: set<string> := {"cniImage", "nodeImage", "flexvolImage", "kubeControllerImage"}

  /** A tree that holds the same image under every one of the keys. */
  lemma SameImages(g: Tree, images: Tree, image: Tree, p: Path)
    requires g.m == map["calico" := images] && images.m.Keys == CALICO && forall k | k in CALICO :: images.m[k] == image
    ensures LeafAt(g, p) <==> UnderImages(p) && LeafAt(image, p[2..])
    ensures UnderImages(p) ==> At(g, p) == At(image, p[2..])
  {
    if p != [] && p[0] == "calico" {
      AtHead(g, p);
      if |p| > 1 {
        AtHead(images, p[1..]);
        assert p[1..][1..] == p[2..];
      }
    }
  }

  predicate UnderImages(p: Path) { |p| >= 2 && p[0] == "calico" && p[1] in CALICO }

  lemma CalicoImages(repository: string, tag: string, p: Path)
    ensures LeafAt(Generate(CanalCalico, repository, tag), p) <==>
            UnderImages(p) && |p| == 3 && (p[2] == "tag" || p[2] == "repository")
    ensures UnderImages(p) && |p| == 3 && p[2] == "tag" ==>
              At(Generate(CanalCalico, repository, tag), p) == Some(Str(tag))
    ensures UnderImages(p) && |p| == 3 && p[2] == "repository" ==>
              At(Generate(CanalCalico, repository, tag), p) == Some(Str(repository))
  {
    var g := Generate(CanalCalico, repository, tag);
    SameImages(g, g.m["calico"], Image("tag", repository, tag), p);
    if UnderImages(p) {
      ImageLeaf("tag", repository, tag, p[2..]);
    }
  }

  lemma CalicoPaths(p: Path)
    requires p != []
    ensures p[..|p| - 1] in ImagePaths(CanalCalico) <==> |p| == 3 && p[0] == "calico" && p[1] in CALICO
  {
    var ip := p[..|p| - 1];
    if |p| == 3 {
      assert ip == [p[0], p[1]];
    }
    assert ImagePaths(CanalCalico)[0] == ["calico", "cniImage"];
    assert ImagePaths(CanalCalico)[1] == ["calico", "flexvolImage"];
    assert ImagePaths(CanalCalico)[2] == ["calico", "kubeControllerImage"];
    assert ImagePaths(CanalCalico)[3] == ["calico", "nodeImage"];
  }

  /** The leaves generated for a component sit next to its images, whatever repository and tag. */
  lemma GeneratedLeaves(c: Component, repository: string, tag: string, p: Path)
    ensures LeafAt(Generate(c, repository, tag), p) <==> IsTagPath(c, p) || IsRepositoryPath(c, p)
    ensures IsTagPath(c, p) ==> At(Generate(c, repository, tag), p) == Some(Str(tag))
    ensures IsRepositoryPath(c, p) ==> At(Generate(c, repository, tag), p) == Some(Str(repository))
  {
    if c.CanalCalico? {
      CalicoImages(repository, tag, p);
      if p != [] { CalicoPaths(p); }
    } else {
      var ip := ImagePaths(c)[0];
      SingleImage(c, repository, tag);
      NestedImage(ip, TagKey(c), repository, tag, p);
      assert ImagePaths(c) == [ip];
      if p != [] {
        assert p == p[..|p| - 1] + [p[|p| - 1]];
      }
    }
  }

  /** The two leaves next to one image. */
  lemma LeavesOfImage(c: Component, repository: string, tag: string, ip: Path)
    requires ip in ImagePaths(c)
    ensures LeafAt(Generate(c, repository, tag), ip + [TagKey(c)])
    ensures LeafAt(Generate(c, repository, tag), ip + ["repository"])
    ensures At(Generate(c, repository, tag), ip + [TagKey(c)]) == Some(Str(tag))
    ensures At(Generate(c, repository, tag), ip + ["repository"]) == Some(Str(repository))
  {
    var p, q := ip + [TagKey(c)], ip + ["repository"];
    assert p[..|p| - 1] == ip && q[..|q| - 1] == ip;
    GeneratedLeaves(c, repository, tag, p);
    GeneratedLeaves(c, repository, tag, q);
  }

  lemma GeneratedShape(c: Component, repository: string, tag: string)
    ensures NoEmptyMaps(Generate(c, repository, tag))
    ensures Generate(c, repository, tag).m.Keys == {TopKey(c)}
  {
    var g := Generate(c, repository, tag);
    var image := Image(TagKey(c), repository, tag);
    assert NoEmptyMaps(image) by {
      assert "repository" in image.m;
    }
    if c.CanalCalico? {
      var images := g.m["calico"];
      assert images.m["cniImage"] == image;
      assert NoEmptyMaps(images);
    } else if |ImagePaths(c)[0]| == 2 {
      assert g == Under(TopKey(c), Under("image", image));
      assert "image" in g.m[TopKey(c)].m;
      assert NoEmptyMaps(g.m[TopKey(c)]);
    }
    assert TopKey(c) in g.m;
  }
}
