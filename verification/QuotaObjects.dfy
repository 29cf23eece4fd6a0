/** The API objects the program works on, as values. */
module QuotaObjects {
  import opened Options
  import opened ResourceLists

  type Labels = map<string, string>

  const LABEL_CLUSTER_RESOURCE_QUOTA := "clusterresourcequota.xiaoshiai.cn"

  /** The ClusterResourceQuota an object with these labels belongs to; "" means none. */
  function MembershipOf(labels: Labels): string {
    if LABEL_CLUSTER_RESOURCE_QUOTA in labels then labels[LABEL_CLUSTER_RESOURCE_QUOTA] else ""
  }

  /** The part of a quota's spec that is copied as a whole, with its scopes and scope selector uninterpreted. */
  datatype QuotaSpec = QuotaSpec(hard: ResourceList, scopes: seq<string>)

  datatype ResourceQuota = ResourceQuota(namespace: string, name: string, labels: Labels,
                                         spec: QuotaSpec, hard: ResourceList, used: ResourceList)

  /** Namespace and name of a quota. */
  type QuotaKey = (string, string)

  datatype NamespaceUsage = NamespaceUsage(name: string, used: ResourceList)

  datatype CrqStatus = CrqStatus(hard: ResourceList, used: ResourceList, namespaces: seq<NamespaceUsage>)

  datatype LabelOperator = In | NotIn | Exists | DoesNotExist | Unknown

  datatype LabelRequirement = LabelRequirement(key: string, op: LabelOperator, values: seq<string>)

  datatype LabelSelector = LabelSelector(matchLabels: Labels, matchExpressions: seq<LabelRequirement>)

  datatype ClusterResourceQuota = ClusterResourceQuota(name: string, labels: Labels, deleting: bool,
                                                       spec: QuotaSpec, namespaceSelector: Option<LabelSelector>,
                                                       status: CrqStatus)

  datatype Namespace = Namespace(name: string, labels: Labels)
}
