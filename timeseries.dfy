/** CreateNodeTimeseries: the readings of one message grouped by identity, each
    group ordered by timestamp. */
module Timeseries {
  import opened Wrappers
  import opened Failures
  import opened Identity
  import opened Readings

  /** Dictionary<ApplicationNodeId, List<KeyValuePair<DateTime, JObject>>>:
      the lists by key, and the order in which the dictionary enumerates its
      keys (the order keys were first added). */
  datatype Timeseries = Timeseries(order: seq<ApplicationNodeId>, series: map<ApplicationNodeId, seq<Entry>>)

  predicate SortedByTime(s: seq<Entry>) {
    forall i, j :: 0 <= i < j < |s| ==> s[i].timestamp <= s[j].timestamp
  }

  /** Puts e into a list already in timestamp order. */
  function InsertByTime(s: seq<Entry>, e: Entry): (r: seq<Entry>)
    requires SortedByTime(s)
    ensures |r| == |s| + 1
    ensures SortedByTime(r)
    ensures multiset(r) == multiset(s) + multiset{e}
    ensures r[|r| - 1] == e || (|s| > 0 && r[|r| - 1] == s[|s| - 1])
  {
    if s == [] || s[|s| - 1].timestamp <= e.timestamp then s + [e]
    else
      var init, last := s[..|s| - 1], s[|s| - 1];
      var r' := InsertByTime(init, e);
      assert forall i :: 0 <= i < |r'| ==> r'[i].timestamp <= r'[|r'| - 1].timestamp <= last.timestamp;
      assert s == init + [last];
      r' + [last]
  }

  /** The outcome of List.Sort with the timestamp comparison: the same entries
      in nondecreasing timestamp order. List.Sort is not stable, so which of two
      equal-timestamp entries comes first is not part of this contract. */
  function SortByTime(s: seq<Entry>): (r: seq<Entry>)
    ensures SortedByTime(r)
    ensures multiset(r) == multiset(s)
  {
    if s == [] then []
    else
      assert s == s[..|s| - 1] + [s[|s| - 1]];
      InsertByTime(SortByTime(s[..|s| - 1]), s[|s| - 1])
  }

  /** The identity of each entry, in input order. */
  function Keys(ks: seq<Keyed>): (ids: seq<ApplicationNodeId>)
    ensures |ids| == |ks| && forall i :: 0 <= i < |ks| ==> ids[i] == ks[i].key
  {
    seq(|ks|, i requires 0 <= i < |ks| => ks[i].key)
  }

  /** The distinct identities of the entries, in order of first occurrence. */
  function Identities(ks: seq<Keyed>): (ids: seq<ApplicationNodeId>)
    ensures forall k :: k in ids <==> k in Keys(ks)
    ensures forall i, j :: 0 <= i < j < |ids| ==> ids[i] != ids[j]
    // first-occurrence order: whatever is listed before the identity of
    // ks[i] already occurs among the entries before ks[i]
    ensures forall i, p, q :: 0 <= i < |ks| && 0 <= q < p < |ids| && ids[p] == ks[i].key ==> ids[q] in Keys(ks[..i])
  {
    if ks == [] then []
    else
      var init, k := ks[..|ks| - 1], ks[|ks| - 1].key;
      var prev := Identities(init);
      assert Keys(ks) == Keys(init) + [k];
      assert forall i :: 0 <= i < |ks| - 1 ==> ks[..i] == init[..i];
      assert ks[..|ks| - 1] == init;
      if k in prev then prev else prev + [k]
  }

  /** The entries of identity k, in input order. */
  function EntriesOf(ks: seq<Keyed>, k: ApplicationNodeId): (es: seq<Entry>)
    ensures forall e :: e in es <==> Keyed(k, e) in ks
  {
    if ks == [] then []
    else
      assert ks == ks[..|ks| - 1] + [ks[|ks| - 1]];
      EntriesOf(ks[..|ks| - 1], k) + (if ks[|ks| - 1].key == k then [ks[|ks| - 1].entry] else [])
  }

  lemma {:induction false} EntriesOfAbsent(ks: seq<Keyed>, k: ApplicationNodeId)
    requires k !in Keys(ks)
    ensures EntriesOf(ks, k) == []
  {
    if ks != [] {
      assert Keys(ks[..|ks| - 1]) == Keys(ks)[..|ks| - 1];
      EntriesOfAbsent(ks[..|ks| - 1], k);
      assert Keys(ks)[|ks| - 1] == ks[|ks| - 1].key;
    }
  }

  /** t is a possible result of CreateNodeTimeseries on the entries ks: one
      list per identity, keys in first-seen order, each list holding exactly
      that identity's entries, in timestamp order. */
  ghost predicate IsTimeseriesOf(ks: seq<Keyed>, t: Timeseries) {
    && t.order == Identities(ks)
    && (forall k :: k in t.series <==> k in t.order)
    && (forall k :: k in t.series ==>
          SortedByTime(t.series[k]) && multiset(t.series[k]) == multiset(EntriesOf(ks, k)))
  }

  /** CreateNodeTimeseries (the null tests of the comparison delegate are left
      out: DateTime is a value type, so they are never true). */
  method CreateNodeTimeseries(readings: seq<Reading>) returns (r: Result<Timeseries, Error>)
    ensures ExtractAll(readings).Failure? ==> r == Failure(ExtractAll(readings).error)
    ensures ExtractAll(readings).Success? ==> r.Success? && IsTimeseriesOf(ExtractAll(readings).value, r.value)
  {
    var order: seq<ApplicationNodeId> := [];
    var series: map<ApplicationNodeId, seq<Entry>> := map[];
    var i := 0;
    while i < |readings|
      invariant 0 <= i <= |readings|
      invariant ExtractAll(readings[..i]).Success?
      invariant IsTimeseriesOf(ExtractAll(readings[..i]).value, Timeseries(order, series))
    {
      var read := ReadEntry(readings[i]);
      if read.Failure? {
        ExtractStopsAtFirstFailure(readings, i);
        return Failure(read.error);
      }
      var kd := read.value;
      ExtractAppend(readings, i);
      if kd.key in series {
        GroupStepKnown(ExtractAll(readings[..i]).value, order, series, kd);
        series := series[kd.key := SortByTime(series[kd.key] + [kd.entry])];
      } else {
        GroupStepNew(ExtractAll(readings[..i]).value, order, series, kd);
        order := order + [kd.key];
        series := series[kd.key := [kd.entry]];
      }
      i := i + 1;
    }
    assert readings[..i] == readings;
    r := Success(Timeseries(order, series));
  }

  lemma EntriesOfAppend(ks: seq<Keyed>, kd: Keyed, k: ApplicationNodeId)
    ensures EntriesOf(ks + [kd], k) == EntriesOf(ks, k) + (if kd.key == k then [kd.entry] else [])
  {
    assert (ks + [kd])[..|ks|] == ks;
  }

  /** The list of the identity just read, re-sorted after the append, holds
      that identity's entries including the new one. */
  lemma AppendedGroup(ks: seq<Keyed>, group: seq<Entry>, kd: Keyed)
    requires multiset(group) == multiset(EntriesOf(ks, kd.key))
    ensures SortedByTime(SortByTime(group + [kd.entry]))
    ensures multiset(SortByTime(group + [kd.entry])) == multiset(EntriesOf(ks + [kd], kd.key))
  {
    EntriesOfAppend(ks, kd, kd.key);
    assert multiset(group + [kd.entry]) == multiset(group) + multiset{kd.entry};
    assert multiset(EntriesOf(ks, kd.key) + [kd.entry]) == multiset(EntriesOf(ks, kd.key)) + multiset{kd.entry};
  }

  /** One iteration of CreateNodeTimeseries for an identity already present:
      append and re-sort keeps the grouping exact. */
  lemma GroupStepKnown(ks: seq<Keyed>, order: seq<ApplicationNodeId>, series: map<ApplicationNodeId, seq<Entry>>, kd: Keyed)
    requires IsTimeseriesOf(ks, Timeseries(order, series)) && kd.key in series
    ensures IsTimeseriesOf(ks + [kd], Timeseries(order, series[kd.key := SortByTime(series[kd.key] + [kd.entry])]))
  {
    var ks' := ks + [kd];
    var series' := series[kd.key := SortByTime(series[kd.key] + [kd.entry])];
    assert ks'[..|ks|] == ks;
    assert Identities(ks') == Identities(ks);
    forall k | k in series'
      ensures SortedByTime(series'[k]) && multiset(series'[k]) == multiset(EntriesOf(ks', k))
    {
      if k == kd.key {
        AppendedGroup(ks, series[kd.key], kd);
      } else {
        EntriesOfAppend(ks, kd, k);
      }
    }
  }

  /** One iteration of CreateNodeTimeseries for a new identity: a one-entry list. */
  lemma GroupStepNew(ks: seq<Keyed>, order: seq<ApplicationNodeId>, series: map<ApplicationNodeId, seq<Entry>>, kd: Keyed)
    requires IsTimeseriesOf(ks, Timeseries(order, series)) && kd.key !in series
    ensures IsTimeseriesOf(ks + [kd], Timeseries(order + [kd.key], series[kd.key := [kd.entry]]))
  {
    var ks' := ks + [kd];
    var series' := series[kd.key := [kd.entry]];
    assert ks'[..|ks|] == ks;
    assert Identities(ks') == Identities(ks) + [kd.key];
    EntriesOfAbsent(ks, kd.key);
    forall k | k in series'
      ensures SortedByTime(series'[k]) && multiset(series'[k]) == multiset(EntriesOf(ks', k))
    {
      EntriesOfAppend(ks, kd, k);
    }
  }

  /** Every group is non-empty. */
  lemma GroupNonEmpty(ks: seq<Keyed>, t: Timeseries, k: ApplicationNodeId)
    requires IsTimeseriesOf(ks, t) && k in t.series
    ensures |t.series[k]| > 0
  {
    assert k in Keys(ks);
    var i :| 0 <= i < |ks| && Keys(ks)[i] == k;
    assert ks[i] == Keyed(k, ks[i].entry);
    assert ks[i].entry in EntriesOf(ks, k);
    assert multiset(t.series[k]) == multiset(EntriesOf(ks, k));
    assert ks[i].entry in multiset(t.series[k]);
  }

  /** A group holds only well-formed readings of its own identity. */
  lemma GroupsHoldTheirIdentity(ks: seq<Keyed>, t: Timeseries, k: ApplicationNodeId)
    requires IsTimeseriesOf(ks, t) && (forall i :: 0 <= i < |ks| ==> ValidKeyed(ks[i]))
    requires k in t.series
    ensures |t.series[k]| > 0
    ensures forall e :: e in t.series[k] ==> WellFormed(e.reading) && IdentityOf(e.reading) == k
    ensures forall e :: e in t.series[k] ==> e.timestamp == TimestampOf(e.reading)
  {
    GroupNonEmpty(ks, t, k);
    var s := t.series[k];
    assert multiset(s) == multiset(EntriesOf(ks, k));
    forall e | e in s ensures WellFormed(e.reading) && IdentityOf(e.reading) == k && e.timestamp == TimestampOf(e.reading) {
      assert e in multiset(s);
      assert e in EntriesOf(ks, k);
      var j :| 0 <= j < |ks| && ks[j] == Keyed(k, e);
      assert ValidKeyed(ks[j]);
    }
  }

  /** Each reading sits in exactly one group: its own identity's. */
  lemma EachReadingInExactlyOneGroup(ks: seq<Keyed>, t: Timeseries, i: nat)
    requires IsTimeseriesOf(ks, t) && (forall j :: 0 <= j < |ks| ==> ValidKeyed(ks[j]))
    requires i < |ks|
    ensures ks[i].key in t.series && ks[i].entry in t.series[ks[i].key]
    ensures forall k :: k in t.series && ks[i].entry in t.series[k] ==> k == ks[i].key
  {
    var k := ks[i].key;
    assert Keys(ks)[i] == k;
    assert ks[i] == Keyed(k, ks[i].entry);
    assert ks[i].entry in EntriesOf(ks, k);
    assert ks[i].entry in multiset(t.series[k]);
    forall k' | k' in t.series && ks[i].entry in t.series[k'] ensures k' == k {
      GroupsHoldTheirIdentity(ks, t, k');
    }
  }

  lemma SortedLastIsMax(s: seq<Entry>)
    requires SortedByTime(s) && |s| > 0
    ensures forall e :: e in s ==> e.timestamp <= s[|s| - 1].timestamp
  {
  }

  /** The last entry of a group is one of that identity's readings, and no
      reading of that identity has a later timestamp. */
  lemma LastEntryIsLatest(ks: seq<Keyed>, t: Timeseries, k: ApplicationNodeId)
    requires IsTimeseriesOf(ks, t) && k in t.series
    ensures |t.series[k]| > 0
    ensures t.series[k][|t.series[k]| - 1] in EntriesOf(ks, k)
    ensures forall e :: e in EntriesOf(ks, k) ==> e.timestamp <= t.series[k][|t.series[k]| - 1].timestamp
  {
    GroupNonEmpty(ks, t, k);
    var s := t.series[k];
    var es := EntriesOf(ks, k);
    assert SortedByTime(s) && multiset(s) == multiset(es);
    SortedLastIsMax(s);
    assert s[|s| - 1] in multiset(es);
    forall e | e in es ensures e.timestamp <= s[|s| - 1].timestamp {
      assert e in multiset(s);
    }
  }

  /** The sum of the groups' sizes, over the given keys. */
  function TotalEntries(series: map<ApplicationNodeId, seq<Entry>>, keys: seq<ApplicationNodeId>): nat
    requires forall k :: k in keys ==> k in series
  {
    if keys == [] then 0 else TotalEntries(series, keys[..|keys| - 1]) + |series[keys[|keys| - 1]]|
  }

  function CountOf(ks: seq<Keyed>, keys: seq<ApplicationNodeId>): nat {
    if keys == [] then 0 else CountOf(ks, keys[..|keys| - 1]) + |EntriesOf(ks, keys[|keys| - 1])|
  }

  lemma {:induction false} CountOfAppend(ks: seq<Keyed>, x: Keyed, keys: seq<ApplicationNodeId>)
    requires forall i, j :: 0 <= i < j < |keys| ==> keys[i] != keys[j]
    ensures CountOf(ks + [x], keys) == CountOf(ks, keys) + (if x.key in keys then 1 else 0)
  {
    assert (ks + [x])[..|ks|] == ks;
    if keys != [] {
      var init := keys[..|keys| - 1];
      CountOfAppend(ks, x, init);
      assert keys == init + [keys[|keys| - 1]];
      assert x.key in keys <==> x.key in init || x.key == keys[|keys| - 1];
    }
  }

  lemma {:induction false} CountOfIdentities(ks: seq<Keyed>)
    ensures CountOf(ks, Identities(ks)) == |ks|
  {
    if ks != [] {
      var init, x := ks[..|ks| - 1], ks[|ks| - 1];
      assert ks == init + [x];
      CountOfIdentities(init);
      CountOfAppend(init, x, Identities(init));
      if x.key !in Identities(init) {
        var ids := Identities(init);
        EntriesOfAbsent(init, x.key);
        assert (ids + [x.key])[..|ids|] == ids;
      }
    }
  }

  lemma {:induction false} TotalIsCount(ks: seq<Keyed>, t: Timeseries, keys: seq<ApplicationNodeId>)
    requires IsTimeseriesOf(ks, t) && forall k :: k in keys ==> k in t.series
    ensures TotalEntries(t.series, keys) == CountOf(ks, keys)
  {
    if keys != [] {
      var k := keys[|keys| - 1];
      TotalIsCount(ks, t, keys[..|keys| - 1]);
      assert |multiset(t.series[k])| == |multiset(EntriesOf(ks, k))|;
    }
  }

  /** No reading is lost or duplicated: the groups' sizes add up to the number
      of readings. */
  lemma GroupSizesSumToReadings(ks: seq<Keyed>, t: Timeseries)
    requires IsTimeseriesOf(ks, t)
    ensures TotalEntries(t.series, t.order) == |ks|
  {
    TotalIsCount(ks, t, t.order);
    CountOfIdentities(ks);
  }

  /** Entries that all share one identity make a single group key. */
  lemma {:induction false} OneIdentity(ks: seq<Keyed>, k: ApplicationNodeId)
    requires |ks| > 0 && forall i :: 0 <= i < |ks| ==> ks[i].key == k
    ensures Identities(ks) == [k]
  {
    if |ks| > 1 {
      OneIdentity(ks[..|ks| - 1], k);
    }
  }
}
