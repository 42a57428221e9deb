/** DoStandardFlattening as functions: the output key of a group, the
    property-by-property build of the output object, and the time stamp. */
module Batch {
  import opened Wrappers
  import opened Failures
  import opened Json
  import opened Identity
  import opened Readings
  import opened Timeseries

  /** The flattener settings the batch path reads. */
  datatype Options = Options(
    useApplicationUri: bool,                    // DoUseApplicationUri
    displayNames: Option<map<string, string>>,  // DisplayNames (null: None)
    addTimeCreated: bool,                       // DoAddTimeCreatedProperty
    timeCreatedName: string)                    // TimeCreatedPropertyname

  /** The settings of a freshly constructed flattener. */
  const DefaultOptions: Options := Options(true, None, true, "TimeCreated")

  /** DateTime.MinValue, in ticks. */
  const MinValue: nat := 0

  /** The display name as it enters the concatenation: a missing one adds nothing. */
  function DisplayNameText(rd: Reading): string {
    rd.displayName.GetOr("")
  }

  /** The candidate key: the ApplicationUri (or nothing, when DoUseApplicationUri
      is off), then ";", then the display name. The ";" is always there. */
  function Candidate(opts: Options, rd: Reading): (r: Result<string, Error>)
    ensures r.Success? <==> (opts.useApplicationUri ==> rd.applicationUri.Some?)
    ensures r.Success? ==>
      r.value == (if opts.useApplicationUri then rd.applicationUri.value else "") + ";" + DisplayNameText(rd)
    ensures r.Success? ==> ';' in r.value
  {
    if opts.useApplicationUri && rd.applicationUri.None? then Failure(NullReference("ApplicationUri"))
    else
      var prefix := if opts.useApplicationUri then rd.applicationUri.value else "";
      assert (prefix + ";" + DisplayNameText(rd))[|prefix|] == ';';
      Success(prefix + ";" + DisplayNameText(rd))
  }

  /** this.DisplayNames[anode[NodeId].ToString()] */
  function Override(table: Option<map<string, string>>, nodeId: Option<string>): (r: Result<string, Error>)
    ensures r.Success? <==> table.Some? && nodeId.Some? && nodeId.value in table.value
    ensures r.Success? ==> r.value == table.value[nodeId.value]
    ensures table.Some? && nodeId.Some? && nodeId.value !in table.value ==> r == Failure(KeyNotFound(nodeId.value))
  {
    if table.None? then Failure(NullReference("DisplayNames"))
    else if nodeId.None? then Failure(NullReference("NodeId"))
    else if nodeId.value !in table.value then Failure(KeyNotFound(nodeId.value))
    else Success(table.value[nodeId.value])
  }

  /** The override table is set and has an entry for the reading's node id. */
  predicate HasOverride(opts: Options, rd: Reading) {
    opts.displayNames.Some? && rd.nodeId.Some? && rd.nodeId.value in opts.displayNames.value
  }

  /** The output key of a reading. An override wins whenever one is registered
      for the node id, whatever the candidate is; the "empty candidate" test
      never fires, because the candidate always holds ";", so resolution
      fails only where the reading lacks a property it reads. */
  function ResolveName(opts: Options, rd: Reading): (r: Result<string, Error>)
    ensures r.Success? <==> Candidate(opts, rd).Success? && (opts.displayNames.Some? ==> rd.nodeId.Some?)
    ensures r.Success? && HasOverride(opts, rd) ==> r.value == opts.displayNames.value[rd.nodeId.value]
    ensures r.Success? && !HasOverride(opts, rd) ==> r.value == Candidate(opts, rd).value
  {
    match Candidate(opts, rd)
    case Failure(e) => Failure(e)
    case Success(candidate) =>
      if opts.displayNames.Some? && rd.nodeId.None? then Failure(NullReference("NodeId"))
      else if (opts.displayNames.Some? && rd.nodeId.value in opts.displayNames.value) || |candidate| == 0 then
        Override(opts.displayNames, rd.nodeId)
      else Success(candidate)
  }

  /** anode["Value"]["Value"]: a missing inner value is added as a JSON null. */
  function ValueOf(rd: Reading): (r: Result<Json, Error>)
    ensures r.Success? <==> rd.envelope.Some?
    ensures r.Success? && rd.envelope.value.value.None? ==> r.value == JNull
    ensures r.Success? && rd.envelope.value.value.Some? ==> r.value == rd.envelope.value.value.value
  {
    if rd.envelope.None? then Failure(NullReference("Value"))
    else Success(rd.envelope.value.value.GetOr(JNull))
  }

  /** The loop state of DoStandardFlattening: the result object's properties and `latest`. */
  datatype Acc = Acc(props: seq<Property>, latest: nat)

  /** One loop iteration: for a non-empty list, add the last entry's value under
      its resolved name and advance `latest` to its timestamp if that is later. */
  function AddGroup(opts: Options, acc: Acc, entries: seq<Entry>): (r: Result<Acc, Error>)
    ensures |entries| == 0 ==> r == Success(acc)
    ensures r.Failure? ==> |entries| > 0
    ensures r.Success? && |entries| > 0 ==>
      && |r.value.props| == |acc.props| + 1 && r.value.props[..|acc.props|] == acc.props
      && ResolveName(opts, entries[|entries| - 1].reading) == Success(r.value.props[|acc.props|].name)
      && r.value.props[|acc.props|].name !in Names(acc.props)
      && acc.latest <= r.value.latest && entries[|entries| - 1].timestamp <= r.value.latest
      && (r.value.latest == acc.latest || r.value.latest == entries[|entries| - 1].timestamp)
  {
    if |entries| == 0 then Success(acc)
    else
      var e := entries[|entries| - 1];
      match ResolveName(opts, e.reading)
      case Failure(err) => Failure(err)
      case Success(name) =>
        match ValueOf(e.reading)
        case Failure(err) => Failure(err)
        case Success(v) =>
          match AddProperty(acc.props, Property(name, v))
          case Failure(err) => Failure(err)
          case Success(props) => Success(Acc(props, if e.timestamp > acc.latest then e.timestamp else acc.latest))
  }

  /** The loop over the given keys, starting from the template and DateTime.MinValue. */
  function Accumulate(opts: Options, template: seq<Property>, series: map<ApplicationNodeId, seq<Entry>>,
                      keys: seq<ApplicationNodeId>): (r: Result<Acc, Error>)
    requires forall k :: k in keys ==> k in series
    ensures r.Success? ==> |template| <= |r.value.props| <= |template| + |keys|
    ensures r.Success? ==> r.value.props[..|template|] == template
    ensures r.Success? ==> forall k :: k in keys && |series[k]| > 0 ==> series[k][|series[k]| - 1].timestamp <= r.value.latest
  {
    if keys == [] then Success(Acc(template, MinValue))
    else
      match Accumulate(opts, template, series, keys[..|keys| - 1])
      case Failure(err) => Failure(err)
      case Success(acc) => AddGroup(opts, acc, series[keys[|keys| - 1]])
  }

  /** DoStandardFlattening after grouping: the loop, then the time property if enabled. */
  function FlattenGroups(opts: Options, template: seq<Property>, t: Timeseries): (r: Result<seq<Property>, Error>)
    requires forall k :: k in t.order ==> k in t.series
    ensures r.Success? ==> |template| <= |r.value| <= |template| + |t.order| + (if opts.addTimeCreated then 1 else 0)
    ensures r.Success? ==> r.value[..|template|] == template
    ensures r.Success? && opts.addTimeCreated ==>
      |r.value| > |template| && r.value[|r.value| - 1].name == opts.timeCreatedName
  {
    match Accumulate(opts, template, t.series, t.order)
    case Failure(err) => Failure(err)
    case Success(acc) =>
      if opts.addTimeCreated then AddProperty(acc.props, Property(opts.timeCreatedName, JDate(acc.latest)))
      else Success(acc.props)
  }

  // ---- A reference description of the output ----

  function LastEntry(es: seq<Entry>): Entry
    requires |es| > 0
  {
    es[|es| - 1]
  }

  /** Every key has a non-empty list whose last reading has the properties the loop reads. */
  ghost predicate Flattenable(series: map<ApplicationNodeId, seq<Entry>>, keys: seq<ApplicationNodeId>) {
    forall k :: k in keys ==> k in series && |series[k]| > 0 && WellFormed(LastEntry(series[k]).reading)
  }

  /** The property a group contributes. */
  function GroupProperty(opts: Options, e: Entry): Property
    requires WellFormed(e.reading)
  {
    Property(ResolveName(opts, e.reading).value, ValueOf(e.reading).value)
  }

  /** One property per key, in key order, from each list's last entry. */
  ghost function Pairs(opts: Options, series: map<ApplicationNodeId, seq<Entry>>, keys: seq<ApplicationNodeId>): (ps: seq<Property>)
    requires Flattenable(series, keys)
    ensures |ps| == |keys|
  {
    seq(|keys|, i requires 0 <= i < |keys| => GroupProperty(opts, LastEntry(series[keys[i]])))
  }

  /** The latest of the lists' last timestamps, or DateTime.MinValue. */
  ghost function LatestOf(series: map<ApplicationNodeId, seq<Entry>>, keys: seq<ApplicationNodeId>): (l: nat)
    requires Flattenable(series, keys)
    ensures forall k :: k in keys ==> LastEntry(series[k]).timestamp <= l
    ensures l == MinValue || exists k :: k in keys && l == LastEntry(series[k]).timestamp
  {
    if keys == [] then MinValue
    else
      var l, ts := LatestOf(series, keys[..|keys| - 1]), LastEntry(series[keys[|keys| - 1]]).timestamp;
      assert forall k :: k in keys ==> k in keys[..|keys| - 1] || k == keys[|keys| - 1];
      if ts > l then ts else l
  }

  /** The latest timestamp among the entries, or DateTime.MinValue when there are none. */
  function MaxTimestamp(ks: seq<Keyed>): (m: nat)
    ensures forall i :: 0 <= i < |ks| ==> ks[i].entry.timestamp <= m
    ensures m == MinValue || exists i :: 0 <= i < |ks| && m == ks[i].entry.timestamp
  {
    if ks == [] then MinValue
    else
      var m, ts := MaxTimestamp(ks[..|ks| - 1]), ks[|ks| - 1].entry.timestamp;
      assert forall i :: 0 <= i < |ks| - 1 ==> ks[..|ks| - 1][i] == ks[i];
      if ts > m then ts else m
  }

  /** The time property, when enabled. */
  function TimeProps(opts: Options, latest: nat): seq<Property> {
    if opts.addTimeCreated then [Property(opts.timeCreatedName, JDate(latest))] else []
  }

  /** The loop adds exactly the reference properties after the template, and
      fails, with a duplicate-name error, exactly when a name repeats. */
  lemma {:induction false} AccumulateYieldsPairs(opts: Options, template: seq<Property>,
                                                  series: map<ApplicationNodeId, seq<Entry>>, keys: seq<ApplicationNodeId>)
    requires Flattenable(series, keys) && DistinctNames(template)
    ensures var out, r := template + Pairs(opts, series, keys), Accumulate(opts, template, series, keys);
      && (r.Success? <==> DistinctNames(out))
      && (r.Success? ==> r.value == Acc(out, LatestOf(series, keys)))
      && (r.Failure? ==> r.error.DuplicateProperty?)
  {
    if keys != [] {
      assert Flattenable(series, keys[..|keys| - 1]);
      AccumulateYieldsPairs(opts, template, series, keys[..|keys| - 1]);
      YieldsPairsStep(opts, template, series, keys);
    }
  }

  /** The conclusion of AccumulateYieldsPairs, for one list of keys. */
  ghost predicate YieldsPairs(opts: Options, template: seq<Property>,
                              series: map<ApplicationNodeId, seq<Entry>>, keys: seq<ApplicationNodeId>)
    requires Flattenable(series, keys)
  {
    var out, r := template + Pairs(opts, series, keys), Accumulate(opts, template, series, keys);
    && (r.Success? <==> DistinctNames(out))
    && (r.Success? ==> r.value == Acc(out, LatestOf(series, keys)))
    && (r.Failure? ==> r.error.DuplicateProperty?)
  }

  /** The inductive step of AccumulateYieldsPairs: one more key. */
  lemma YieldsPairsStep(opts: Options, template: seq<Property>,
                        series: map<ApplicationNodeId, seq<Entry>>, keys: seq<ApplicationNodeId>)
    requires |keys| > 0 && Flattenable(series, keys) && Flattenable(series, keys[..|keys| - 1])
    requires YieldsPairs(opts, template, series, keys[..|keys| - 1])
    ensures YieldsPairs(opts, template, series, keys)
  {
    var init, k := keys[..|keys| - 1], keys[|keys| - 1];
    var ps := Pairs(opts, series, init);
    var p := GroupProperty(opts, LastEntry(series[k]));
    assert Pairs(opts, series, keys) == ps + [p];
    assert template + Pairs(opts, series, keys) == (template + ps) + [p];
    DistinctNamesAppend(template + ps, p);
    var prev := Accumulate(opts, template, series, init);
    if prev.Success? {
      var acc := Acc(template + ps, LatestOf(series, init));
      assert Accumulate(opts, template, series, keys) == AddGroup(opts, acc, series[k]);
      AddGroupOfWellFormed(opts, acc, series[k]);
    } else {
      assert Accumulate(opts, template, series, keys) == prev;
    }
  }

  /** One loop step on a group whose last reading has what the loop reads:
      it appends that group's property unless the name is already taken. */
  lemma AddGroupOfWellFormed(opts: Options, acc: Acc, es: seq<Entry>)
    requires |es| > 0 && WellFormed(LastEntry(es).reading)
    ensures var p, r := GroupProperty(opts, LastEntry(es)), AddGroup(opts, acc, es);
      && (r.Success? <==> p.name !in Names(acc.props))
      && (r.Success? ==> r.value == Acc(acc.props + [p], if LastEntry(es).timestamp > acc.latest then LastEntry(es).timestamp else acc.latest))
      && (r.Failure? ==> r.error == DuplicateProperty(p.name))
  {
  }

  /** The time property equals the latest timestamp of all readings. */
  lemma LatestIsMaxTimestamp(ks: seq<Keyed>, t: Timeseries)
    requires IsTimeseriesOf(ks, t)
    requires Flattenable(t.series, t.order)
    ensures LatestOf(t.series, t.order) == MaxTimestamp(ks)
  {
    var l, m := LatestOf(t.series, t.order), MaxTimestamp(ks);
    assert l <= m by {
      if l != MinValue {
        var k :| k in t.order && l == LastEntry(t.series[k]).timestamp;
        LastEntryIsLatest(ks, t, k);
        var e := LastEntry(t.series[k]);
        assert Keyed(k, e) in ks;
        var i :| 0 <= i < |ks| && ks[i] == Keyed(k, e);
        assert ks[i].entry.timestamp <= m;
      }
    }
    assert m <= l by {
      if m != MinValue {
        var i :| 0 <= i < |ks| && m == ks[i].entry.timestamp;
        var k := ks[i].key;
        assert Keys(ks)[i] == k;
        assert k in t.order;
        assert ks[i] == Keyed(k, ks[i].entry);
        assert ks[i].entry in EntriesOf(ks, k);
        LastEntryIsLatest(ks, t, k);
        assert m <= LastEntry(t.series[k]).timestamp;
      }
    }
  }

  /** What DoStandardFlattening produces from a grouping of well-formed readings:
      the template, then one property per identity in first-seen order (the
      last entry's value under its resolved name), then the time stamp with
      the latest timestamp; it fails, with a duplicate-name error, exactly when
      one of these names repeats. */
  lemma StandardFlattening(opts: Options, template: seq<Property>, ks: seq<Keyed>, t: Timeseries)
    requires IsTimeseriesOf(ks, t) && (forall i :: 0 <= i < |ks| ==> ValidKeyed(ks[i]))
    requires DistinctNames(template)
    ensures Flattenable(t.series, t.order)
    ensures var out, r := template + Pairs(opts, t.series, t.order) + TimeProps(opts, MaxTimestamp(ks)),
                          FlattenGroups(opts, template, t);
      && (r.Success? <==> DistinctNames(out))
      && (r.Success? ==> r.value == out)
      && (r.Failure? ==> r.error.DuplicateProperty?)
  {
    forall k | k in t.order ensures k in t.series && |t.series[k]| > 0 && WellFormed(LastEntry(t.series[k]).reading) {
      GroupsHoldTheirIdentity(ks, t, k);
    }
    AccumulateYieldsPairs(opts, template, t.series, t.order);
    LatestIsMaxTimestamp(ks, t);
    var mid := template + Pairs(opts, t.series, t.order);
    if opts.addTimeCreated {
      DistinctNamesAppend(mid, Property(opts.timeCreatedName, JDate(MaxTimestamp(ks))));
    } else {
      assert mid + TimeProps(opts, MaxTimestamp(ks)) == mid;
    }
  }

  /** What a batch output looks like whichever of several equal-timestamp
      readings each group ends with: only a repeated name makes it fail, and
      a success keeps the template at the front, adds one property per
      identity and, when enabled, ends with TimeCreated holding the latest
      timestamp of all readings. */
  ghost predicate Shaped(opts: Options, template: seq<Property>, ks: seq<Keyed>, r: Result<seq<Property>, Error>) {
    && (r.Failure? ==> r.error.DuplicateProperty?)
    && (r.Success? ==>
          && |r.value| == |template| + |Identities(ks)| + |TimeProps(opts, MaxTimestamp(ks))|
          && r.value[..|template|] == template
          && r.value[|template| + |Identities(ks)|..] == TimeProps(opts, MaxTimestamp(ks))
          && DistinctNames(r.value))
  }

  lemma OutputShape(opts: Options, template: seq<Property>, ks: seq<Keyed>, t: Timeseries)
    requires IsTimeseriesOf(ks, t) && (forall i :: 0 <= i < |ks| ==> ValidKeyed(ks[i]))
    requires DistinctNames(template)
    ensures Shaped(opts, template, ks, FlattenGroups(opts, template, t))
  {
    StandardFlattening(opts, template, ks, t);
    var ps, tp := Pairs(opts, t.series, t.order), TimeProps(opts, MaxTimestamp(ks));
    var r := FlattenGroups(opts, template, t);
    assert |ps| == |Identities(ks)|;
    if r.Success? {
      assert r.value == template + ps + tp;
      ThreeParts(template, ps, tp);
    }
  }

  lemma ThreeParts(a: seq<Property>, b: seq<Property>, c: seq<Property>)
    ensures |a + b + c| == |a| + |b| + |c|
    ensures (a + b + c)[..|a|] == a && (a + b + c)[|a| + |b|..] == c
  {
  }

  /** Once the loop has failed, the remaining groups change nothing. */
  lemma {:induction false} AccumulateFailureStops(opts: Options, template: seq<Property>,
                                                   series: map<ApplicationNodeId, seq<Entry>>, keys: seq<ApplicationNodeId>, n: nat)
    requires forall k :: k in keys ==> k in series
    requires n <= |keys| && Accumulate(opts, template, series, keys[..n]).Failure?
    ensures Accumulate(opts, template, series, keys) == Accumulate(opts, template, series, keys[..n])
    decreases |keys| - n
  {
    if n < |keys| {
      assert keys[..n + 1][..n] == keys[..n];
      AccumulateFailureStops(opts, template, series, keys, n + 1);
    } else {
      assert keys[..n] == keys;
    }
  }

  /** One more key extends the loop by one AddGroup step. */
  lemma AccumulateNext(opts: Options, template: seq<Property>, series: map<ApplicationNodeId, seq<Entry>>,
                       keys: seq<ApplicationNodeId>, n: nat, acc: Acc)
    requires forall k :: k in keys ==> k in series
    requires n < |keys| && Accumulate(opts, template, series, keys[..n]) == Success(acc)
    ensures Accumulate(opts, template, series, keys[..n + 1]) == AddGroup(opts, acc, series[keys[n]])
  {
    assert keys[..n + 1][..n] == keys[..n];
  }
}
