/** Batch flattening of one and of two readings with the default settings and
    no template. */
module Scenarios {
  import opened Wrappers
  import opened Json
  import opened Identity
  import opened Readings
  import opened Timeseries
  import opened Batch

  /** The key the default settings give a reading: ApplicationUri;DisplayName. */
  function DefaultName(rd: Reading): string
    requires WellFormed(rd)
  {
    rd.applicationUri.value + ";" + DisplayNameText(rd)
  }

  /** The loop over a single group whose latest entry is e adds e's value
      under its default name and leaves e's timestamp as the latest. */
  lemma OneGroupLoop(t: Timeseries, id: ApplicationNodeId, e: Entry)
    requires t.order == [id] && id in t.series
    requires |t.series[id]| > 0 && t.series[id][|t.series[id]| - 1] == e
    requires WellFormed(e.reading)
    ensures Accumulate(DefaultOptions, [], t.series, t.order) ==
            Success(Acc([Property(DefaultName(e.reading), ValueOf(e.reading).value)], e.timestamp))
  {
    var name := DefaultName(e.reading);
    var v := ValueOf(e.reading).value;
    assert ResolveName(DefaultOptions, e.reading) == Success(name);
    var none: seq<Property> := [];
    assert Names(none) == [];
    assert none + [Property(name, v)] == [Property(name, v)];
    assert AddProperty(none, Property(name, v)) == Success([Property(name, v)]);
    assert t.order[..|t.order| - 1] == [];
    assert AddGroup(DefaultOptions, Acc([], MinValue), t.series[id]) == Success(Acc([Property(name, v)], e.timestamp));
  }

  /** A timeseries with a single group whose latest entry is e gives e's value
      under its default name, then e's timestamp as TimeCreated. */
  lemma OneGroupFlattening(t: Timeseries, id: ApplicationNodeId, e: Entry)
    requires t.order == [id] && id in t.series
    requires |t.series[id]| > 0 && t.series[id][|t.series[id]| - 1] == e
    requires WellFormed(e.reading)
    ensures FlattenGroups(DefaultOptions, [], t) ==
            Success([Property(DefaultName(e.reading), ValueOf(e.reading).value), Property("TimeCreated", JDate(e.timestamp))])
  {
    var name := DefaultName(e.reading);
    var p := Property(name, ValueOf(e.reading).value);
    var tc := Property("TimeCreated", JDate(e.timestamp));
    OneGroupLoop(t, id, e);
    assert name[|e.reading.applicationUri.value|] == ';' && ';' !in DefaultOptions.timeCreatedName;
    assert Names([p]) == [name];
    assert [p] + [tc] == [p, tc];
    assert AddProperty([p], tc) == Success([p, tc]);
  }

  /** One reading gives its value under ApplicationUri;DisplayName and its
      SourceTimestamp as TimeCreated. */
  lemma SingleReadingFlattening(rd: Reading, t: Timeseries)
    requires WellFormed(rd)
    requires IsTimeseriesOf(ExtractAll([rd]).value, t)
    ensures FlattenGroups(DefaultOptions, [], t) ==
            Success([Property(DefaultName(rd), ValueOf(rd).value), Property("TimeCreated", JDate(TimestampOf(rd)))])
  {
    var ks := ExtractAll([rd]).value;
    var id := IdentityOf(rd);
    OneIdentity(ks, id);
    LastEntryIsLatest(ks, t, id);
    assert EntriesOf(ks, id) == [ks[0].entry] by {
      assert ks[..0] == [];
    }
    OneGroupFlattening(t, id, ks[0].entry);
  }

  /** Two readings of the same node with different timestamps, in either
      order: the later one's value and display name make the output, and its
      timestamp is TimeCreated. */
  lemma LaterReadingWins(rd1: Reading, rd2: Reading, t: Timeseries)
    requires WellFormed(rd1) && WellFormed(rd2)
    requires IdentityOf(rd1) == IdentityOf(rd2) && TimestampOf(rd1) != TimestampOf(rd2)
    requires IsTimeseriesOf(ExtractAll([rd1, rd2]).value, t)
    ensures var later := if TimestampOf(rd1) < TimestampOf(rd2) then rd2 else rd1;
      FlattenGroups(DefaultOptions, [], t) ==
      Success([Property(DefaultName(later), ValueOf(later).value), Property("TimeCreated", JDate(TimestampOf(later)))])
  {
    var id := IdentityOf(rd1);
    LaterIsLast(rd1, rd2, t);
    OneGroupFlattening(t, id, t.series[id][|t.series[id]| - 1]);
  }

  /** Of two readings of one node, the later one ends its single group,
      whichever of the two arrives first. */
  lemma LaterIsLast(rd1: Reading, rd2: Reading, t: Timeseries)
    requires WellFormed(rd1) && WellFormed(rd2)
    requires IdentityOf(rd1) == IdentityOf(rd2) && TimestampOf(rd1) != TimestampOf(rd2)
    requires IsTimeseriesOf(ExtractAll([rd1, rd2]).value, t)
    ensures t.order == [IdentityOf(rd1)] && IdentityOf(rd1) in t.series
    ensures |t.series[IdentityOf(rd1)]| > 0
    ensures var later := if TimestampOf(rd1) < TimestampOf(rd2) then rd2 else rd1;
      t.series[IdentityOf(rd1)][|t.series[IdentityOf(rd1)]| - 1] == Entry(TimestampOf(later), later)
  {
    var id := IdentityOf(rd1);
    var e1, e2 := Entry(TimestampOf(rd1), rd1), Entry(TimestampOf(rd2), rd2);
    TwoEntries(rd1, rd2);
    LatestOfTwo([Keyed(id, e1), Keyed(id, e2)], t, id);
  }

  /** The entries of two readings of one node. */
  lemma TwoEntries(rd1: Reading, rd2: Reading)
    requires WellFormed(rd1) && WellFormed(rd2) && IdentityOf(rd1) == IdentityOf(rd2)
    ensures ExtractAll([rd1, rd2]) ==
      Success([Keyed(IdentityOf(rd1), Entry(TimestampOf(rd1), rd1)), Keyed(IdentityOf(rd1), Entry(TimestampOf(rd2), rd2))])
  {
    var rds := [rd1, rd2];
    assert forall i :: 0 <= i < |rds| ==> WellFormed(rds[i]);
    var ks := ExtractAll(rds).value;
    assert |ks| == 2;
    assert ValidKeyed(ks[0]) && ks[0].entry.reading == rd1;
    assert ValidKeyed(ks[1]) && ks[1].entry.reading == rd2;
    assert ks == [ks[0], ks[1]];
  }

  /** A group of two entries of one identity with different timestamps ends
      with the later one, whichever of the two came first. */
  lemma LatestOfTwo(ks: seq<Keyed>, t: Timeseries, id: ApplicationNodeId)
    requires |ks| == 2 && ks[0].key == id && ks[1].key == id
    requires ks[0].entry.timestamp != ks[1].entry.timestamp
    requires IsTimeseriesOf(ks, t)
    ensures t.order == [id] && id in t.series && |t.series[id]| > 0
    ensures t.series[id][|t.series[id]| - 1] ==
            if ks[0].entry.timestamp < ks[1].entry.timestamp then ks[1].entry else ks[0].entry
  {
    OneIdentity(ks, id);
    LastEntryIsLatest(ks, t, id);
    var last := t.series[id][|t.series[id]| - 1];
    assert ks[0] == Keyed(id, ks[0].entry) && ks[1] == Keyed(id, ks[1].entry);
    assert ks[0].entry in EntriesOf(ks, id) && ks[1].entry in EntriesOf(ks, id);
    assert Keyed(id, last) in ks;
  }
}
