/**
  The search that locates the Flutter view controller in a window's
  view-controller hierarchy before the drop surface is attached to it.
  A controller is a node of a rose tree; `isFlutter` stands for the dynamic
  type test `vc as? FlutterViewController`.
 */
module FlutterViews {
  import opened Wrappers

  /** A view controller: an identity, whether it is a Flutter view controller,
      and its child controllers in order. */
  datatype View = View(id: nat, isFlutter: bool, children: seq<View>)

  /** The search as the source writes it: the node itself when it matches,
      otherwise the first child subtree whose search succeeds. */
  function Find(v: View): (r: Option<View>)
    ensures v.isFlutter ==> r == Some(v)
    ensures r.Some? ==> r.value.isFlutter
    decreases v, 1
  {
    if v.isFlutter then Some(v) else FindAmong(v.children)
  }

  /** The `for child in vc.children` loop with its early return. */
  function FindAmong(cs: seq<View>): (r: Option<View>)
    ensures cs == [] ==> r.None?
    ensures r.Some? ==> r.value.isFlutter
    decreases cs, 0
  {
    if cs == [] then None
    else
      match Find(cs[0])
      case Some(f) => Some(f)
      case None => FindAmong(cs[1..])
  }

  /** Depth-first, pre-order listing of a tree: a node, then each child's
      subtree in child order. */
  function Preorder(v: View): seq<View>
    decreases v, 1
  {
    [v] + PreorderAll(v.children)
  }

  function PreorderAll(cs: seq<View>): seq<View>
    decreases cs, 0
  {
    if cs == [] then [] else Preorder(cs[0]) + PreorderAll(cs[1..])
  }

  /** Reference definition: the first Flutter view controller of a listing. */
  function FirstFlutter(s: seq<View>): (r: Option<View>)
    ensures r.None? <==> forall i :: 0 <= i < |s| ==> !s[i].isFlutter
    ensures r.Some? ==>
      exists k :: 0 <= k < |s| && s[k] == r.value && r.value.isFlutter &&
        forall j :: 0 <= j < k ==> !s[j].isFlutter
  {
    if s == [] then None
    else if s[0].isFlutter then Some(s[0])
    else
      FirstFlutter(s[1..])
  }

  /** The first match of a concatenation is the first match of the left part
      when it has one, and the first match of the right part otherwise. */
  lemma {:induction false} FirstFlutterAppend(a: seq<View>, b: seq<View>)
    ensures FirstFlutter(a + b) == if FirstFlutter(a).Some? then FirstFlutter(a) else FirstFlutter(b)
    decreases |a|
  {
    if a == [] {
      assert a + b == b;
    } else {
      assert (a + b)[0] == a[0];
      assert (a + b)[1..] == a[1..] + b;
      if !a[0].isFlutter {
        FirstFlutterAppend(a[1..], b);
      }
    }
  }

  /** The source's search finds exactly the first Flutter view controller in
      depth-first, pre-order, child-order traversal. */
  lemma {:induction false} FindIsFirstInPreorder(v: View)
    ensures Find(v) == FirstFlutter(Preorder(v))
    decreases v, 1
  {
    var s := Preorder(v);
    assert s[0] == v;
    if !v.isFlutter {
      assert s[1..] == PreorderAll(v.children);
      FindAmongIsFirstInPreorder(v.children);
    }
  }

  lemma {:induction false} FindAmongIsFirstInPreorder(cs: seq<View>)
    ensures FindAmong(cs) == FirstFlutter(PreorderAll(cs))
    decreases cs, 0
  {
    if cs != [] {
      FindIsFirstInPreorder(cs[0]);
      FindAmongIsFirstInPreorder(cs[1..]);
      FirstFlutterAppend(Preorder(cs[0]), PreorderAll(cs[1..]));
    }
  }

  /** `findFlutterViewController`: nil for a nil root, the root itself when it
      is a Flutter view controller, otherwise the first match in depth-first
      child-order traversal; nil exactly when no node of the tree matches. */
  function FindFlutterViewController(root: Option<View>): (r: Option<View>)
    ensures root.None? ==> r.None?
    ensures root.Some? && root.value.isFlutter ==> r == root
    ensures root.Some? ==> r == FirstFlutter(Preorder(root.value))
    ensures root.Some? ==>
      (r.None? <==> forall n :: n in Preorder(root.value) ==> !n.isFlutter)
    ensures r.Some? ==> r.value.isFlutter && r.value in Preorder(root.value)
  {
    match root
    case None => None
    case Some(v) =>
      FindIsFirstInPreorder(v);
      Find(v)
  }
}
