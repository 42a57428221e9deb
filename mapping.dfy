/** The NodesMapping loop of UseMappingConfigurationFromFile: node id to
    preferred output key. */
module Mapping {
  import opened Wrappers
  import opened Failures

  /** One element of the NodesMapping array, as the loop reads it: the name of
      its first property (None when it has none) and the text of that
      property's "DisplayName" (None when missing). */
  datatype MappingElement = MappingElement(nodeId: Option<string>, displayName: Option<string>)

  /** The DisplayNames dictionary after the loop, and the exception that ended
      it early, if any. */
  datatype MappingState = MappingState(table: map<string, string>, error: Option<Error>)

  predicate WellFormedElement(el: MappingElement) {
    el.nodeId.Some? && el.displayName.Some?
  }

  /** One DisplayNames.Add(nodeid, ...): fails on a missing part or a node id
      already present. */
  function AddMapping(table: map<string, string>, el: MappingElement): (r: Result<map<string, string>, Error>)
    ensures r.Success? <==> WellFormedElement(el) && el.nodeId.value !in table
    ensures r.Success? ==> r.value == table[el.nodeId.value := el.displayName.value]
  {
    if el.nodeId.None? then Failure(NullReference("NodesMapping element"))
    else if el.displayName.None? then Failure(NullReference("DisplayName"))
    else if el.nodeId.value in table then Failure(DuplicateKey(el.nodeId.value))
    else Success(table[el.nodeId.value := el.displayName.value])
  }

  /** The loop over the elements, starting from an empty table; it stops at
      the first element DisplayNames.Add throws on. */
  function BuildMapping(els: seq<MappingElement>): (st: MappingState)
    ensures |st.table| <= |els|
    ensures st.error.None? ==> |st.table| == |els|
    ensures st.error.Some? ==> |els| > 0
  {
    if els == [] then MappingState(map[], None)
    else
      var prev := BuildMapping(els[..|els| - 1]);
      if prev.error.Some? then prev
      else
        match AddMapping(prev.table, els[|els| - 1])
        case Failure(e) => MappingState(prev.table, Some(e))
        case Success(table) => MappingState(table, None)
  }

  predicate AllWellFormed(els: seq<MappingElement>) {
    forall i :: 0 <= i < |els| ==> WellFormedElement(els[i])
  }

  predicate DistinctNodeIds(els: seq<MappingElement>) {
    forall i, j :: 0 <= i < j < |els| ==> els[i].nodeId != els[j].nodeId
  }

  /** The table holds exactly the node ids of the elements, each mapped to its
      element's display name. */
  ghost predicate TableOf(els: seq<MappingElement>, table: map<string, string>)
    requires AllWellFormed(els)
  {
    && (forall id :: id in table <==> Some(id) in NodeIds(els))
    && (forall i :: 0 <= i < |els| ==> table[els[i].nodeId.value] == els[i].displayName.value)
  }

  /** Construction succeeds exactly when every element is well-formed and no
      node id repeats, and the table then maps each node id to its display name. */
  lemma {:induction false} MappingOutcome(els: seq<MappingElement>)
    ensures BuildMapping(els).error.None? <==> AllWellFormed(els) && DistinctNodeIds(els)
    ensures BuildMapping(els).error.None? ==> TableOf(els, BuildMapping(els).table)
  {
    if els != [] {
      var init, el := els[..|els| - 1], els[|els| - 1];
      assert els == init + [el];
      MappingOutcome(init);
      var prev := BuildMapping(init);
      GoodSplit(init, el);
      if prev.error.Some? {
      } else if AddMapping(prev.table, el).Failure? {
        RepeatedNodeId(init, prev.table, el);
      } else {
        assert BuildMapping(els) == MappingState(AddMapping(prev.table, el).value, None);
        TableStep(init, prev.table, el);
      }
    }
  }

  /** The elements are all well-formed with distinct node ids exactly when the
      earlier ones are and the last one is well-formed with a new node id. */
  lemma GoodSplit(init: seq<MappingElement>, el: MappingElement)
    ensures AllWellFormed(init + [el]) && DistinctNodeIds(init + [el]) <==>
            && AllWellFormed(init) && DistinctNodeIds(init) && WellFormedElement(el)
            && forall i :: 0 <= i < |init| ==> init[i].nodeId != el.nodeId
  {
    var els := init + [el];
    assert forall i :: 0 <= i < |init| ==> els[i] == init[i];
    assert els[|init|] == el;
  }

  /** A new node id extends the table of the earlier elements by its own entry. */
  lemma TableStep(init: seq<MappingElement>, table: map<string, string>, el: MappingElement)
    requires AllWellFormed(init) && DistinctNodeIds(init) && TableOf(init, table)
    requires AddMapping(table, el).Success?
    ensures AllWellFormed(init + [el]) && DistinctNodeIds(init + [el])
    ensures TableOf(init + [el], AddMapping(table, el).value)
  {
    var els, id := init + [el], el.nodeId.value;
    assert NodeIds(els) == NodeIds(init) + [el.nodeId];
    forall i | 0 <= i < |init| ensures els[i].nodeId != el.nodeId {
      assert NodeIds(init)[i] == init[i].nodeId;
    }
  }

  /** An element whose node id is in the table built from earlier elements
      repeats one of their node ids. */
  lemma RepeatedNodeId(init: seq<MappingElement>, table: map<string, string>, el: MappingElement)
    requires forall id :: id in table <==> Some(id) in NodeIds(init)
    requires AddMapping(table, el).Failure?
    ensures !WellFormedElement(el) || exists i :: 0 <= i < |init| && init[i].nodeId == el.nodeId
  {
    if WellFormedElement(el) {
      assert Some(el.nodeId.value) in NodeIds(init);
      var i :| 0 <= i < |init| && NodeIds(init)[i] == el.nodeId;
    }
  }

  function NodeIds(els: seq<MappingElement>): (ids: seq<Option<string>>)
    ensures |ids| == |els| && forall i :: 0 <= i < |els| ==> ids[i] == els[i].nodeId
  {
    seq(|els|, i requires 0 <= i < |els| => els[i].nodeId)
  }

  /** After a failure the loop has stopped: later elements change nothing. */
  lemma {:induction false} FailureStops(els: seq<MappingElement>, n: nat)
    requires n <= |els| && BuildMapping(els[..n]).error.Some?
    ensures BuildMapping(els) == BuildMapping(els[..n])
    decreases |els| - n
  {
    if n < |els| {
      assert els[..n + 1][..n] == els[..n];
      FailureStops(els, n + 1);
    } else {
      assert els[..n] == els;
    }
  }

  /** A failing construction leaves the table the elements before the failing
      one built: the dictionary is replaced before the loop runs, so a bad
      mapping document leaves a partly filled DisplayNames behind. */
  lemma {:induction false} FailureKeepsPrefix(els: seq<MappingElement>)
    requires BuildMapping(els).error.Some?
    ensures exists n :: 0 <= n < |els| && BuildMapping(els[..n]).error.None?
                        && AddMapping(BuildMapping(els[..n]).table, els[n]).Failure?
                        && BuildMapping(els).table == BuildMapping(els[..n]).table
  {
    var init := els[..|els| - 1];
    if BuildMapping(init).error.Some? {
      FailureKeepsPrefix(init);
      var n :| 0 <= n < |init| && BuildMapping(init[..n]).error.None?
               && AddMapping(BuildMapping(init[..n]).table, init[n]).Failure?
               && BuildMapping(init).table == BuildMapping(init[..n]).table;
      assert init[..n] == els[..n];
    } else {
      assert els[..|els| - 1] == init;
    }
  }
}
