/**
 The per-root prefix tree of dereferenced navigations. The parent back-reference
 is kept as a non-owning record of what the rewrite reads from the parent: the
 parent's navigation path from the root and its effective optionality.
 */
module NavigationTree {
  import opened Common
  import opened Metadata

  datatype ParentLink = ParentLink(path: seq<Nav>, optional: bool)

  datatype NavigationTreeNode = NavigationTreeNode(
    navigation: Nav,
    /** Effective optionality: the navigation's own, or'ed with every ancestor's. */
    optional: bool,
    parent: Option<ParentLink>,
    children: seq<NavigationTreeNode>)

  /** The navigations from the root to the node's parent; empty for a top-level node. */
  function ParentPath(node: NavigationTreeNode): seq<Nav> {
    match node.parent
    case Some(link) => link.path
    case None => []
  }

  /** `GeneratePath`: the navigation names from the root down to and including the node. */
  function GeneratePath(node: NavigationTreeNode): (r: seq<string>)
    ensures |r| == |ParentPath(node)| + 1
    ensures r[|r| - 1] == node.navigation.name
  {
    Names(ParentPath(node)) + [node.navigation.name]
  }

  /** The node's key reads must be null-guarded: it has a parent and that parent is optional. */
  predicate ParentIsOptional(node: NavigationTreeNode) {
    node.parent.Some? && node.parent.value.optional
  }

  /**
   A node that sits at `prefix` below the root: its parent link records `prefix`
   (and is absent exactly at the top level), and every child sits below it with a
   link back to it.
   */
  ghost predicate WellFormedAt(node: NavigationTreeNode, prefix: seq<Nav>)
    decreases node
  {
    && ParentPath(node) == prefix
    && (node.parent.None? <==> prefix == [])
    && forall i :: 0 <= i < |node.children| ==>
         && node.children[i].parent == Some(ParentLink(prefix + [node.navigation], node.optional))
         && WellFormedAt(node.children[i], prefix + [node.navigation])
  }

  /** In a well-formed tree, a node's generated path is the names of the path that reaches it. */
  lemma GeneratePathOfWellFormed(node: NavigationTreeNode, prefix: seq<Nav>)
    requires WellFormedAt(node, prefix)
    ensures GeneratePath(node) == Names(prefix + [node.navigation])
  {
    NamesAppend(prefix, node.navigation);
  }
}
