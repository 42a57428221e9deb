/** One OPC UA publisher reading, as the flattener reads it out of a JObject. */
module Readings {
  import opened Wrappers
  import opened Failures
  import opened Json
  import opened Identity

  /** The "Value" object of a reading: the payload under its inner "Value" and
      the parsed "SourceTimestamp" (ticks; None when missing or not a date). */
  datatype Envelope = Envelope(value: Option<Json>, sourceTimestamp: Option<nat>)

  /** The text ToString() yields for each property the flattener reads, under
      the configured names (NodeIdPropertyname, DisplayNamePropertyname);
      None where the property is missing. */
  datatype Reading = Reading(
    applicationUri: Option<string>,
    nodeId: Option<string>,
    displayName: Option<string>,
    envelope: Option<Envelope>)

  /** KeyValuePair<DateTime, JObject>: a reading paired with its timestamp. */
  datatype Entry = Entry(timestamp: nat, reading: Reading)

  /** An entry together with the identity it is grouped under. */
  datatype Keyed = Keyed(key: ApplicationNodeId, entry: Entry)

  /** All the properties CreateNodeTimeseries dereferences are there. */
  predicate WellFormed(rd: Reading) {
    && rd.applicationUri.Some?
    && rd.nodeId.Some?
    && rd.envelope.Some?
    && rd.envelope.value.sourceTimestamp.Some?
  }

  function IdentityOf(rd: Reading): ApplicationNodeId
    requires WellFormed(rd)
  {
    ApplicationNodeId(rd.applicationUri.value, rd.nodeId.value)
  }

  function TimestampOf(rd: Reading): nat
    requires WellFormed(rd)
  {
    rd.envelope.value.sourceTimestamp.value
  }

  /** The entry carries its own reading, that reading's timestamp, and is keyed
      by that reading's identity. */
  predicate ValidKeyed(kd: Keyed) {
    && WellFormed(kd.entry.reading)
    && kd.key == IdentityOf(kd.entry.reading)
    && kd.entry.timestamp == TimestampOf(kd.entry.reading)
  }

  /** What one iteration of CreateNodeTimeseries reads from a node, in the
      order C# evaluates it: ApplicationUri, the node id, Value, SourceTimestamp. */
  function ReadEntry(rd: Reading): (r: Result<Keyed, Error>)
    ensures r.Success? <==> WellFormed(rd)
    ensures r.Success? ==> ValidKeyed(r.value) && r.value.entry.reading == rd
  {
    if rd.applicationUri.None? then Failure(NullReference("ApplicationUri"))
    else if rd.nodeId.None? then Failure(NullReference("NodeId"))
    else if rd.envelope.None? then Failure(NullReference("Value"))
    else if rd.envelope.value.sourceTimestamp.None? then Failure(InvalidTimestamp)
    else Success(Keyed(ApplicationNodeId(rd.applicationUri.value, rd.nodeId.value),
                       Entry(rd.envelope.value.sourceTimestamp.value, rd)))
  }

  /** The entries of all readings in order, or the error of the first reading
      that lacks a property. */
  function ExtractAll(rds: seq<Reading>): (r: Result<seq<Keyed>, Error>)
    ensures r.Success? <==> forall i :: 0 <= i < |rds| ==> WellFormed(rds[i])
    ensures r.Success? ==> |r.value| == |rds|
    ensures r.Success? ==> forall i :: 0 <= i < |rds| ==> ValidKeyed(r.value[i]) && r.value[i].entry.reading == rds[i]
    ensures r.Failure? ==> exists i :: 0 <= i < |rds| && ReadEntry(rds[i]) == Failure(r.error)
                                       && forall j :: 0 <= j < i ==> WellFormed(rds[j])
  {
    if rds == [] then Success([])
    else
      var init := rds[..|rds| - 1];
      match ExtractAll(init)
      case Failure(e) => Failure(e)
      case Success(ks) =>
        match ReadEntry(rds[|rds| - 1])
        case Failure(e) => Failure(e)
        case Success(kd) => Success(ks + [kd])
  }

  /** Extraction stops at the first malformed reading, whatever follows it. */
  lemma {:induction false} ExtractStopsAtFirstFailure(rds: seq<Reading>, i: nat)
    requires i < |rds| && ReadEntry(rds[i]).Failure?
    requires forall j :: 0 <= j < i ==> WellFormed(rds[j])
    ensures ExtractAll(rds) == Failure(ReadEntry(rds[i]).error)
    decreases |rds|
  {
    var init := rds[..|rds| - 1];
    if i < |rds| - 1 {
      ExtractStopsAtFirstFailure(init, i);
    } else {
      assert forall j :: 0 <= j < |init| ==> WellFormed(init[j]);
    }
  }

  /** Extending the input by one well-formed reading extends the entries by its entry. */
  lemma ExtractAppend(rds: seq<Reading>, i: nat)
    requires i < |rds| && ExtractAll(rds[..i]).Success? && ReadEntry(rds[i]).Success?
    ensures ExtractAll(rds[..i + 1]) == Success(ExtractAll(rds[..i]).value + [ReadEntry(rds[i]).value])
  {
    assert rds[..i + 1][..i] == rds[..i];
  }
}
