/** The parsed form of the bracket notation used by the event-log files: a
    node is a quoted string, a bare number, or a braced list of nodes.  The
    parser itself is not part of this model; its output is taken as input.
    The casts mirror the explicit conversions of a bracket node to string and
    to int, which throw when the node has another shape. */
module Nodes {
  import opened Wrappers
  import opened Strings

  datatype Node = Str(s: string) | Num(n: int) | List(items: seq<Node>)

  /** node[i]: a child of a list node. */
  function At(node: Node, i: int): (r: Result<Node>)
    ensures r.Ok? <==> node.List? && 0 <= i < |node.items|
    ensures r.Ok? ==> r.value == node.items[i] && r.value < node
    ensures r.Err? ==> r.error == FormatError
  {
    if node.List? && 0 <= i < |node.items| then Ok(node.items[i]) else Err(FormatError)
  }

  /** node.Count: the number of children of a list node. */
  function Count(node: Node): (r: Result<nat>)
    ensures r.Ok? <==> node.List?
    ensures r.Err? ==> r.error == FormatError
  {
    if node.List? then Ok(|node.items|) else Err(FormatError)
  }

  /** (string)node: the text of a leaf; a number is rendered in decimal. */
  function AsString(node: Result<Node>): (r: Result<string>)
    ensures node.Ok? && node.value.Str? ==> r == Ok(node.value.s)
    ensures r.Ok? ==> node.Ok? && !node.value.List?
    ensures r.Err? ==> (node.Err? && r.error == node.error) || r.error == FormatError
  {
    match node
    case Err(e) => Err(e)
    case Ok(Str(s)) => Ok(s)
    case Ok(Num(n)) => Ok(IntToString(n))
    case Ok(List(_)) => Err(FormatError)
  }

  /** (int)node: a number in Int32 range, or a string that parses as one;
      a number outside Int32 overflows. */
  function AsInt(node: Result<Node>): (r: Result<int>)
    ensures node.Ok? && node.value.Num? && IsInt32(node.value.n) ==> r == Ok(node.value.n)
    ensures r.Ok? ==> node.Ok? && !node.value.List? && IsInt32(r.value)
    ensures r.Err? ==> (node.Err? && r.error == node.error) || Malformed(r.error)
  {
    match node
    case Err(e) => Err(e)
    case Ok(Str(s)) => ParseInt32(s)
    case Ok(Num(n)) => if IsInt32(n) then Ok(n) else Err(Overflow)
    case Ok(List(_)) => Err(FormatError)
  }

  /** (string)node[i] */
  function StringAt(node: Node, i: int): (r: Result<string>)
    ensures r.Err? ==> r.error == FormatError
  {
    AsString(At(node, i))
  }

  /** (int)node[i] */
  function IntAt(node: Node, i: int): (r: Result<int>)
    ensures r.Err? ==> Malformed(r.error)
  {
    AsInt(At(node, i))
  }

  /** A number node and the string of its digits cast to the same int. */
  lemma NumberAndTextCastAlike(n: int)
    requires IsInt32(n)
    ensures AsInt(Ok(Str(IntToString(n)))) == AsInt(Ok(Num(n))) == Ok(n)
    ensures AsString(Ok(Num(n))) == Ok(IntToString(n))
  {
    IntToStringRoundTrip(n);
  }
}
