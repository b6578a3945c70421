/** internal/model/eks.go: the wire types the access modules share. Timestamps, tags and ARNs
    that are only echoed back are not part of the model. */
module Model {

  datatype AccessScope = AccessScope(kind: string, namespaces: seq<string>)

  datatype AssociatedPolicy = AssociatedPolicy(arn: string, scope: AccessScope)

  datatype Entry = Entry(principal: string, username: string, groups: seq<string>, policies: seq<AssociatedPolicy>) {
    /** The user an entry's bindings name: the stored username, or the principal when it is unset. */
    function Subject(): string {
      if username == "" then principal else username
    }
  }

  const CLUSTER_SCOPE := "cluster"
  const NAMESPACE_SCOPE := "namespace"

  const MODE_CONFIG_MAP := "CONFIG_MAP"
  const MODE_API := "API"
  const MODE_API_AND_CONFIG_MAP := "API_AND_CONFIG_MAP"

  const POLICY_PREFIX := "arn:aws:eks::aws:cluster-access-policy"
  const CLUSTER_ADMIN_NAME := "AmazonEKSClusterAdminPolicy"
  const ADMIN_NAME := "AmazonEKSAdminPolicy"
  const EDIT_NAME := "AmazonEKSEditPolicy"
  const VIEW_NAME := "AmazonEKSViewPolicy"
  const ADMIN_VIEW_NAME := "AmazonEKSAdminViewPolicy"

  const CLUSTER_ADMIN_POLICY := POLICY_PREFIX + "/" + CLUSTER_ADMIN_NAME
  const ADMIN_POLICY := POLICY_PREFIX + "/" + ADMIN_NAME
  const EDIT_POLICY := POLICY_PREFIX + "/" + EDIT_NAME
  const VIEW_POLICY := POLICY_PREFIX + "/" + VIEW_NAME
  const ADMIN_VIEW_POLICY := POLICY_PREFIX + "/" + ADMIN_VIEW_NAME
}
