/**
 Naming rules applied before any resource is created:
 - a Resalloc name becomes a VPC name by turning every `_` into `-`
   (`resalloc_to_ibmcloud_name`), and the mangled name decides whether the
   instance is a production or a development one;
 - a PowerVS name is cut to its last 46 characters (`powervs_name`).
 */
module Names {
  import opened Strings

  /** `resalloc_to_ibmcloud_name` */
  function MangleName(name: string): (r: string)
    ensures |r| == |name|
    ensures '_' !in r
    ensures forall i :: 0 <= i < |name| ==> r[i] == if name[i] == '_' then '-' else name[i]
  {
    ReplaceChar(name, '_', '-')
  }

  /** Mangling a name that has no `_` leaves it as it is. */
  lemma MangleKeepsPlainNames(name: string)
    requires '_' !in name
    ensures MangleName(name) == name
  {
  }

  datatype InstanceKind = Production | Devel

  /** `"production" if "-prod-" in name else "devel"`, applied to the mangled name. */
  function KindOf(mangled: string): (k: InstanceKind)
    ensures k == Production <==> exists i :: OccursAt(mangled, "-prod-", i)
  {
    ContainsAt(mangled, "-prod-");
    if Contains(mangled, "-prod-") then Production else Devel
  }

  /** Because `_` becomes `-` first, a Resalloc name spelled `x_prod_y` is production too. */
  lemma UnderscoreProdIsProduction(pre: string, post: string)
    ensures KindOf(MangleName(pre + "_prod_" + post)) == Production
  {
    var m := MangleName(pre + "_prod_" + post);
    assert m[|pre|..|pre| + 6] == "-prod-";
    assert OccursAt(m, "-prod-", |pre|);
  }

  /** Longest name PowerVS is given. */
  const PowerVSNameMax: nat := 46

  /** `powervs_name`: `name[-46:]` */
  function PowervsName(name: string): (r: string)
    ensures |r| == if |name| < PowerVSNameMax then |name| else PowerVSNameMax
    ensures r == name[|name| - |r|..]
  {
    LastN(name, PowerVSNameMax)
  }

  /** Names that already fit are passed through. */
  lemma PowervsNameKeepsShortNames(name: string)
    requires |name| <= PowerVSNameMax
    ensures PowervsName(name) == name
  {
  }

  /** Truncating twice is truncating once. */
  lemma PowervsNameIdempotent(name: string)
    ensures PowervsName(PowervsName(name)) == PowervsName(name)
  {
    PowervsNameKeepsShortNames(PowervsName(name));
  }

  /** Two names that share their last 46 characters get the same PowerVS name. */
  lemma PowervsNameCollides(a: string, b: string)
    requires |a| >= PowerVSNameMax && |b| >= PowerVSNameMax
    requires a[|a| - PowerVSNameMax..] == b[|b| - PowerVSNameMax..]
    ensures PowervsName(a) == PowervsName(b)
  {
  }
}
