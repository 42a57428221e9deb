/** OPCUAPublisherNodesFlattener: its settings, the entry dispatch, the batch
    flattening loop and the construction of the override table. */
module Flattener {
  import opened Wrappers
  import opened Failures
  import opened Json
  import opened Identity
  import opened Readings
  import opened Timeseries
  import opened Batch
  import opened Mapping
  import opened Streaming

  /** What DoFlatten does with the message text. */
  datatype Route = NoOutput | ArrayOfReadings | SingleReading

  /** String.Length: the number of UTF-16 code units. A character outside the
      Basic Multilingual Plane is stored as a surrogate pair and counts twice. */
  function Utf16Length(s: string): (n: nat)
    ensures |s| <= n <= 2 * |s|
  {
    if s == [] then 0
    else Utf16Length(s[..|s| - 1]) + (if s[|s| - 1] as int >= 0x1_0000 then 2 else 1)
  }

  /** The route is decided by the raw text: null, a text of at most two UTF-16
      code units, or one that starts with neither '[' nor '{' gives no output. StartsWith(char)
      compares the first code unit, which is '[' or '{' exactly when the
      first character is. */
  function RouteOf(message: Option<string>): (route: Route)
    ensures route == NoOutput <==>
      message.None? || Utf16Length(message.value) <= 2 || (message.value[0] != '[' && message.value[0] != '{')
    ensures route == ArrayOfReadings <==>
      message.Some? && Utf16Length(message.value) > 2 && message.value[0] == '['
    ensures route == SingleReading <==>
      message.Some? && Utf16Length(message.value) > 2 && message.value[0] == '{'
  {
    if message.None? || Utf16Length(message.value) <= 2 then NoOutput
    else if message.value[0] == '[' then ArrayOfReadings
    else if message.value[0] == '{' then SingleReading
    else NoOutput
  }

  /** Two characters can be three code units: "[" and U+1F600 is long enough
      to be parsed as an array. */
  lemma SurrogatePairCountsTwice()
    ensures |"[\U{1F600}"| == 2 && Utf16Length("[\U{1F600}") == 3
    ensures RouteOf(Some("[\U{1F600}")) == ArrayOfReadings
  {
    var s := "[\U{1F600}";
    assert s[..1] == "[" && s[..1][..0] == "";
  }

  /** The loop of DoStandardFlattening over the grouped keys, adding each
      group's latest value to `result` (which starts as the template) and
      returning the latest timestamp seen. */
  method AddLatestValues(result: JsonObject, opts: Options, ghost template: seq<Property>,
                         series: map<ApplicationNodeId, seq<Entry>>, order: seq<ApplicationNodeId>)
    returns (r: Result<nat, Error>)
    requires result.props == template
    requires forall k :: k in order ==> k in series
    modifies result
    ensures r.Failure? ==> Accumulate(opts, template, series, order) == Failure(r.error)
    ensures r.Success? ==> Accumulate(opts, template, series, order) == Success(Acc(result.props, r.value))
  {
    var latest: nat := MinValue;
    var i := 0;
    assert order[..i] == [];
    while i < |order|
      invariant 0 <= i <= |order|
      invariant Accumulate(opts, template, series, order[..i]) == Success(Acc(result.props, latest))
    {
      ghost var acc := Acc(result.props, latest);
      AccumulateNext(opts, template, series, order, i, acc);
      var nodeTSEntries := series[order[i]];
      ghost var step := AddGroup(opts, acc, nodeTSEntries);
      if |nodeTSEntries| > 0 {
        var anode := nodeTSEntries[|nodeTSEntries| - 1].reading;
        var displayname := ResolveName(opts, anode);
        if displayname.Failure? {
          assert step == Failure(displayname.error);
          AccumulateFailureStops(opts, template, series, order, i + 1);
          return Failure(displayname.error);
        }
        var value := ValueOf(anode);
        if value.Failure? {
          assert step == Failure(value.error);
          AccumulateFailureStops(opts, template, series, order, i + 1);
          return Failure(value.error);
        }
        var added := result.Add(Property(displayname.value, value.value));
        if !added {
          assert step == Failure(DuplicateProperty(displayname.value));
          AccumulateFailureStops(opts, template, series, order, i + 1);
          return Failure(DuplicateProperty(displayname.value));
        }
        var aDate := nodeTSEntries[|nodeTSEntries| - 1].timestamp;
        if aDate > latest {
          latest := aDate;
        }
        assert step == Success(Acc(result.props, latest));
      } else {
        assert step == Success(acc);
      }
      assert Accumulate(opts, template, series, order[..i + 1]) == Success(Acc(result.props, latest));
      i := i + 1;
    }
    assert order[..i] == order;
    r := Success(latest);
  }

  class NodesFlattener {
    var timeCreatedPropertyname: string
    var doAddTimeCreatedProperty: bool
    var doUseApplicationUri: bool
    var outputTemplate: JsonObject?
    var displayNames: Option<map<string, string>>

    /** The output template, when there is one, is a well-formed object. */
    ghost predicate Valid()
      reads this, outputTemplate
    {
      outputTemplate == null || outputTemplate.Valid()
    }

    constructor ()
      ensures Valid() && Settings() == DefaultOptions && outputTemplate == null
    {
      timeCreatedPropertyname := "TimeCreated";
      doAddTimeCreatedProperty := true;
      doUseApplicationUri := true;
      outputTemplate := null;
      displayNames := None;
    }

    function Settings(): Options
      reads this
    {
      Options(doUseApplicationUri, displayNames, doAddTimeCreatedProperty, timeCreatedPropertyname)
    }

    /** The properties every output starts from. */
    function Template(): seq<Property>
      reads this, outputTemplate
    {
      if outputTemplate == null then [] else outputTemplate.props
    }

    /** r is what DoStandardFlattening may return for these readings, t the
        grouping it built on the way. */
    ghost predicate FlattensTo(readings: seq<Reading>, r: Result<seq<Property>, Error>, t: Timeseries)
      reads this, outputTemplate
    {
      var ks := ExtractAll(readings);
      && (ks.Failure? ==> r == Failure(ks.error))
      && (ks.Success? ==> IsTimeseriesOf(ks.value, t) && r == FlattenGroups(Settings(), Template(), t))
    }

    /** What is known of DoStandardFlattening's result without fixing the
        grouping: the first malformed reading's error, or an output of the
        Shaped form. */
    ghost predicate Outcome(readings: seq<Reading>, r: Result<seq<Property>, Error>)
      reads this, outputTemplate
    {
      var ks := ExtractAll(readings);
      && (ks.Failure? ==> r == Failure(ks.error))
      && (ks.Success? ==> Shaped(Settings(), Template(), ks.value, r))
    }

    /** DoFlatten. The JSON parsers are parameters: parseArray stands for
        JArray.Parse and parseObject for JObject.Parse, each followed by
        reading the nodes' properties. An empty object (no properties) is the
        "{}" output. */
    method DoFlatten(message: Option<string>, parseArray: string -> Result<seq<Reading>, Error>,
                     parseObject: string -> Result<Reading, Error>)
      returns (r: Result<seq<Property>, Error>, ghost t: Timeseries)
      requires Valid()
      ensures RouteOf(message) == NoOutput ==> r == Success([])
      ensures RouteOf(message) == ArrayOfReadings ==>
        match parseArray(message.value)
        case Failure(e) => r == Failure(e)
        case Success(readings) => FlattensTo(readings, r, t) && Outcome(readings, r)
      ensures RouteOf(message) == SingleReading ==>
        match parseObject(message.value)
        case Failure(e) => r == Failure(e)
        case Success(reading) => FlattensTo([reading], r, t) && Outcome([reading], r)
    {
      r, t := Success([]), Timeseries([], map[]);
      var route := RouteOf(message);
      if route == ArrayOfReadings {
        var nodes := parseArray(message.value);
        if nodes.Failure? {
          return Failure(nodes.error), t;
        }
        r, t := DoStandardFlattening(nodes.value);
      } else if route == SingleReading {
        var node := parseObject(message.value);
        if node.Failure? {
          return Failure(node.error), t;
        }
        var opcNodes := [node.value];
        r, t := DoStandardFlattening(opcNodes);
      }
    }

    /** DoStandardFlattening. It changes no object that existed before the
        call: the output is built in a deep clone of the template (or a new
        object), so the shared template is never mutated. */
    method DoStandardFlattening(readings: seq<Reading>) returns (r: Result<seq<Property>, Error>, ghost t: Timeseries)
      requires Valid()
      ensures FlattensTo(readings, r, t)
      ensures Outcome(readings, r)
    {
      var nodes := CreateNodeTimeseries(readings);
      if nodes.Failure? {
        return Failure(nodes.error), Timeseries([], map[]);
      }
      var nodeTimeseries := nodes.value;
      t := nodeTimeseries;
      OutputShape(Settings(), Template(), ExtractAll(readings).value, t);
      var result: JsonObject;
      if outputTemplate != null {
        result := outputTemplate.DeepClone();
      } else {
        result := new JsonObject();
      }
      ghost var template := Template();
      var opts := Settings();
      var loop := AddLatestValues(result, opts, template, nodeTimeseries.series, nodeTimeseries.order);
      if loop.Failure? {
        return Failure(loop.error), t;
      }
      var latest := loop.value;
      if opts.addTimeCreated {
        var added := result.Add(Property(opts.timeCreatedName, JDate(latest)));
        if !added {
          return Failure(DuplicateProperty(opts.timeCreatedName)), t;
        }
      }
      r := Success(result.props);
    }

    /** DoFlattenAsync, run synchronously over the message's token stream:
        the properties written inside the wrapping object. It reads no field
        of the flattener. */
    method DoFlattenAsync(toks: seq<Token>) returns (r: Result<seq<StreamProperty>, Error>)
      ensures r == StreamFrom(toks, 0)
    {
      var written: seq<StreamProperty> := [];
      var pos: nat := 0;
      EmitPrepend([], None, StreamFrom(toks, 0));
      while pos < |toks|
        invariant pos <= |toks| + 1
        invariant StreamFrom(toks, 0) == Emit(written, StreamFrom(toks, pos))
        decreases |toks| + 1 - pos
      {
        ghost var before, writtenBefore := pos, written;
        pos := pos + 1;
        var foundDisplayname;
        foundDisplayname, pos := ReadTillNextProp(toks, pos, "DisplayName");
        if foundDisplayname {
          pos := Advance(toks, pos).1;
          var key := Current(toks, pos);
          if key.None? {
            assert StreamFrom(toks, before) == Failure(NullReference("reader.Value"));
            return Failure(NullReference("reader.Value"));
          }
          var propName := Text(key.value);
          var value1, value2, read := false, false, false;
          value1, pos := ReadTillNextProp(toks, pos, "Value");
          if value1 {
            value2, pos := ReadTillNextProp(toks, pos, "Value");
            if value2 {
              read, pos := Advance(toks, pos).0, Advance(toks, pos).1;
              if read {
                written := written + [StreamProperty(propName, Current(toks, pos))];
              }
            }
          }
        }
        ghost var pass := Iterate(toks, before).written;
        assert StreamFrom(toks, before) == Prepend(pass, StreamFrom(toks, pos));
        assert written == writtenBefore + (if pass.Some? then [pass.value] else []);
        EmitPrepend(writtenBefore, pass, StreamFrom(toks, pos));
      }
      assert StreamFrom(toks, pos) == Success([]);
      assert written + [] == written;
      r := Success(written);
    }

    /** The NodesMapping loop of UseMappingConfigurationFromFile, on the
        already parsed elements. DisplayNames is replaced by an empty table
        first and filled element by element, so an element that throws leaves
        the entries before it in place. */
    method UseMappingConfiguration(elements: seq<MappingElement>) returns (error: Option<Error>)
      modifies this`displayNames
      ensures old(Valid()) ==> Valid()
      ensures displayNames == Some(BuildMapping(elements).table)
      ensures error == BuildMapping(elements).error
    {
      var table: map<string, string> := map[];
      displayNames := Some(table);
      var i := 0;
      while i < |elements|
        invariant 0 <= i <= |elements|
        invariant BuildMapping(elements[..i]) == MappingState(table, None)
        invariant displayNames == Some(table)
      {
        assert elements[..i + 1][..i] == elements[..i];
        match AddMapping(table, elements[i])
        case Failure(e) =>
          FailureStops(elements, i + 1);
          return Some(e);
        case Success(next) =>
          table := next;
          displayNames := Some(table);
        i := i + 1;
      }
      assert elements[..i] == elements;
      error := None;
    }
  }
}
