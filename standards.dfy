/**
 * The projection `getStandardGroups` applies to the lesson-navigation tree:
 * the children of its first "Standards" branch as (label, setId) groups.
 */
module Standards {
  import opened Wrappers
  import opened Records

  /** `tree.filter(b => b.text === text)[0]` as an index: the first such branch, or `|tree|` when none. */
  function FirstBranch(tree: seq<Node>, text: string): (i: nat)
    ensures i <= |tree|
    ensures i < |tree| ==> tree[i].text == text
    ensures forall j :: 0 <= j < i ==> tree[j].text != text
  {
    if tree == [] then 0
    else if tree[0].text == text then 0
    else 1 + FirstBranch(tree[1..], text)
  }

  /**
   * `children.map(child => ({label: child.text, setId: child.xconfig.setId}))`:
   * one group per child, in order; a child without `xconfig` throws a TypeError.
   */
  function ProjectChildren(children: seq<Node>): (r: Result<seq<StandardGroup>, Error>)
    ensures r.Success? <==> forall k :: 0 <= k < |children| ==> children[k].xconfig.Some?
    ensures r.Success? ==>
      && |r.value| == |children|
      && forall k :: 0 <= k < |children| ==>
           r.value[k] == StandardGroup(children[k].text, children[k].xconfig.value.setId)
  {
    if children == [] then Success([])
    else if children[0].xconfig.None? then Failure(TypeError("Cannot read property 'setId' of undefined"))
    else
      var rest :- ProjectChildren(children[1..]);
      Success([StandardGroup(children[0].text, children[0].xconfig.value.setId)] + rest)
  }

  /**
   * The standards groups of a loaded tree: the projected children of its
   * first branch whose text is "Standards"; a tree without such a branch
   * throws a TypeError (the code reads `children` of `undefined`).
   */
  function StandardGroupsOf(tree: seq<Node>): (r: Result<seq<StandardGroup>, Error>)
    ensures (forall j :: 0 <= j < |tree| ==> tree[j].text != "Standards") ==> r.Failure?
    ensures var i := FirstBranch(tree, "Standards");
      i < |tree| ==> (r.Success? <==> forall k :: 0 <= k < |tree[i].children| ==> tree[i].children[k].xconfig.Some?)
    ensures r.Success? ==>
      var i := FirstBranch(tree, "Standards");
      && i < |tree| && tree[i].text == "Standards"
      && |r.value| == |tree[i].children|
      && forall k :: 0 <= k < |r.value| ==>
           r.value[k].title == tree[i].children[k].text
           && tree[i].children[k].xconfig == Some(XConfig(r.value[k].setId))
  {
    var i := FirstBranch(tree, "Standards");
    if i == |tree| then Failure(TypeError("Cannot read property 'children' of undefined"))
    else ProjectChildren(tree[i].children)
  }
}
