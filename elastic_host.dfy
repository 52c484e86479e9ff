/** ElasticSearchNode: a cluster node as configured.  Two nodes are the
    same node when their hosts are equal; the credentials do not take part
    in equality or in the hash. */
module ElasticHost {
  datatype AuthenticationType = NoAuthentication | Basic | ApiKey

  datatype ElasticSearchNode = ElasticSearchNode(
    host: string,
    authenticationType: AuthenticationType,
    id: string,
    apiKey: string,
    userName: string,
    password: string)

  /** What an `object` argument can be: null, a node, or an object of some
      other type. */
  datatype Obj = Null | NodeObj(node: ElasticSearchNode) | OtherObj

  /** Equals(object): the argument is a node with the same host. */
  function Equals(n: ElasticSearchNode, obj: Obj): (r: bool)
    ensures r ==> obj.NodeObj?
    ensures obj.NodeObj? ==> (r <==> obj.node.host == n.host)
  {
    match obj
    case NodeObj(other) => n.host == other.host
    case _ => false
  }

  /** GetHashCode: HashCode.Combine over the host alone; combine is the
      runtime's hash of a string. */
  function GetHashCode(n: ElasticSearchNode, combine: string -> int): (h: int)
    ensures forall m: ElasticSearchNode :: m.host == n.host ==> h == combine(m.host)
  {
    combine(n.host)
  }

  /** Equal nodes hash equally, whatever their credentials. */
  lemma EqualNodesHashEqually(a: ElasticSearchNode, b: ElasticSearchNode, combine: string -> int)
    requires Equals(a, NodeObj(b))
    ensures GetHashCode(a, combine) == GetHashCode(b, combine)
  {
  }

  /** operator ==, through EqualityComparer.Default: two nulls are equal,
      null never equals a node, and two nodes compare with Equals. */
  function OpEq(left: Obj, right: Obj): (r: bool)
    requires !left.OtherObj? && !right.OtherObj?
    ensures left.Null? && right.Null? ==> r
    ensures left.Null? != right.Null? ==> !r
    ensures left.NodeObj? && right.NodeObj? ==> (r <==> left.node.host == right.node.host)
  {
    match left
    case Null => right.Null?
    case NodeObj(l) => Equals(l, right)
    case OtherObj => false
  }

  /** operator !=: the negation of ==. */
  function OpNeq(left: Obj, right: Obj): (r: bool)
    requires !left.OtherObj? && !right.OtherObj?
    ensures r <==> !OpEq(left, right)
  {
    !OpEq(left, right)
  }

  /** == is an equivalence on nodes and null. */
  lemma OpEqIsEquivalence(a: Obj, b: Obj, c: Obj)
    requires !a.OtherObj? && !b.OtherObj? && !c.OtherObj?
    ensures OpEq(a, a)
    ensures OpEq(a, b) == OpEq(b, a)
    ensures OpEq(a, b) && OpEq(b, c) ==> OpEq(a, c)
  {
  }
}
