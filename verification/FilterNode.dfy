/** A node of a class tree: the editor shows one per class, with the mark the filter gives it. */
module FilterNodes {
  import opened Engine
  import opened ClassFilter

  class Node {
    const cls: Class
    var childrenList: seq<Node>
    var filterState: Mark
    var parentNode: Node?

    constructor (cls: Class)
      ensures this.cls == cls && childrenList == [] && filterState == Unmarked && parentNode == null
    {
      this.cls := cls;
      childrenList, filterState, parentNode := [], Unmarked, null;
    }

    /** A copy with neither the children nor the parent. */
    constructor Copy(node: Node)
      ensures cls == node.cls && childrenList == [] && filterState == node.filterState && parentNode == null
    {
      cls := node.cls;
      childrenList, filterState, parentNode := [], node.filterState, null;
    }

    method AddChild(child: Node)
      modifies `childrenList, child`parentNode
      ensures childrenList == old(childrenList) + [child] && child.parentNode == this
    {
      childrenList := childrenList + [child];
      child.parentNode := this;
    }

    method SetOwnFilterState(state: Mark)
      modifies `filterState
      ensures filterState == state
    {
      filterState := state;
    }

    method SetStateFromFilter(filter: ClassFilter)
      modifies `filterState
      ensures filterState == OwnMark(filter.View(), cls.path)
    {
      if cls.path in filter.allowedClasses {
        filterState := Allowed;
      } else if cls.path in filter.ignoredClasses {
        filterState := Denied;
      } else {
        filterState := Unmarked;
      }
    }
  }
}
