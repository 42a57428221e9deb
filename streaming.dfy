/** DoFlattenAsync and ReadTillNextProp: a forward-only scan over the JSON
    token stream of a message. The reader is a token sequence and a cursor:
    cursor 0 is before the first token, cursor p (1 <= p <= |toks|) has
    token p - 1 as the current token, and |toks| + 1 means the reader is
    exhausted. */
module Streaming {
  import opened Wrappers
  import opened Failures

  /** A token's value: a string (a property name or a string value) or any
      other primitive, by its text. */
  datatype Scalar = SString(s: string) | SOther(text: string)

  /** A token; start/end tokens and null carry no value. */
  datatype Token = Token(value: Option<Scalar>)

  /** One property written to the output object. */
  datatype StreamProperty = StreamProperty(name: string, value: Option<Scalar>)

  /** Value.ToString(). */
  function Text(v: Scalar): string {
    match v
    case SString(s) => s
    case SOther(text) => text
  }

  /** reader.Value != null && reader.Value.Equals(name): only a string value equals a string. */
  predicate Matches(v: Option<Scalar>, name: string) {
    v == Some(SString(name))
  }

  /** reader.Value at cursor pos. */
  function Current(toks: seq<Token>, pos: nat): Option<Scalar> {
    if 1 <= pos <= |toks| then toks[pos - 1].value else None
  }

  /** reader.Read(): whether a token was read, and the new cursor. */
  function Advance(toks: seq<Token>, pos: nat): (bool, nat)
    requires pos <= |toks| + 1
  {
    if pos < |toks| then (true, pos + 1) else (false, |toks| + 1)
  }

  /** No token at an index in [from, to) is the string name. */
  predicate NoMatch(toks: seq<Token>, from: nat, to: nat, name: string) {
    forall j :: from <= j < to && j < |toks| ==> !Matches(toks[j].value, name)
  }

  /** Where ReadTillNextProp leaves the reader. It never moves backward and
      moves forward unless the reader is already exhausted. */
  function Seek(toks: seq<Token>, pos: nat, name: string): (r: (bool, nat))
    requires pos <= |toks| + 1
    ensures pos <= r.1 <= |toks| + 1
    ensures pos <= |toks| ==> pos < r.1
    decreases |toks| + 1 - pos
  {
    if pos < |toks| then
      if Matches(toks[pos].value, name) then (true, pos + 1) else Seek(toks, pos + 1, name)
    else (false, |toks| + 1)
  }

  /** ReadTillNextProp stops at the first token after the cursor whose value
      is the string name, and reports false only when the reader is exhausted
      with no such token on the way. */
  lemma {:induction false} SeekIsFirstMatch(toks: seq<Token>, pos: nat, name: string)
    requires pos <= |toks| + 1
    ensures var r := Seek(toks, pos, name);
      && (r.0 ==> r.1 <= |toks| && Matches(toks[r.1 - 1].value, name) && NoMatch(toks, pos, r.1 - 1, name))
      && (!r.0 <==> r.1 == |toks| + 1 && NoMatch(toks, pos, |toks|, name))
    decreases |toks| + 1 - pos
  {
    if pos < |toks| && !Matches(toks[pos].value, name) {
      SeekIsFirstMatch(toks, pos + 1, name);
    }
  }

  /** ReadTillNextProp. */
  method ReadTillNextProp(toks: seq<Token>, pos: nat, name: string) returns (found: bool, next: nat)
    requires pos <= |toks| + 1
    ensures (found, next) == Seek(toks, pos, name)
  {
    var read;
    read, next := Advance(toks, pos).0, Advance(toks, pos).1;
    while read
      invariant next <= |toks| + 1
      invariant read ==> 1 <= next <= |toks| && Seek(toks, pos, name) == Seek(toks, next - 1, name)
      invariant !read ==> next == |toks| + 1 && Seek(toks, pos, name) == (false, |toks| + 1)
      decreases |toks| + 1 - next
    {
      if Matches(Current(toks, next), name) {
        return true, next;
      }
      var step := Advance(toks, next);
      read, next := step.0, step.1;
    }
    found := false;
  }

  /** The outcome of one pass of the outer loop: the reader was exhausted,
      reading the key threw, or the loop goes on from cursor next, having
      written a property or not. */
  datatype Iteration = Finished | Thrown(error: Error) | Continue(next: nat, written: Option<StreamProperty>)

  /** One pass of `while (reader.Read()) { ... }` from cursor pos: find
      "DisplayName", read the key from the next token, find "Value" twice,
      and write the next token's value under that key. */
  function Iterate(toks: seq<Token>, pos: nat): (it: Iteration)
    requires pos <= |toks| + 1
    ensures it.Finished? <==> pos >= |toks|
    ensures it.Continue? ==> pos < it.next <= |toks| + 1
    ensures it.Thrown? ==> it.error == NullReference("reader.Value")
  {
    var (read, p1) := Advance(toks, pos);
    if !read then Finished
    else
      var (found, p2) := Seek(toks, p1, "DisplayName");
      if !found then Continue(p2, None)
      else
        var (_, p3) := Advance(toks, p2);
        match Current(toks, p3)
        case None => Thrown(NullReference("reader.Value"))
        case Some(key) =>
          var (value1, p4) := Seek(toks, p3, "Value");
          if !value1 then Continue(p4, None)
          else
            var (value2, p5) := Seek(toks, p4, "Value");
            if !value2 then Continue(p5, None)
            else
              var (read6, p6) := Advance(toks, p5);
              if !read6 then Continue(p6, None)
              else Continue(p6, Some(StreamProperty(Text(key), Current(toks, p6))))
  }

  /** Puts the property written, if any, in front of the properties still to come. */
  function Prepend(written: Option<StreamProperty>, rest: Result<seq<StreamProperty>, Error>): Result<seq<StreamProperty>, Error> {
    match rest
    case Success(ps) => Success((if written.Some? then [written.value] else []) + ps)
    case Failure(e) => Failure(e)
  }

  /** Properties already written, followed by the outcome of the rest. */
  function Emit(out: seq<StreamProperty>, rest: Result<seq<StreamProperty>, Error>): Result<seq<StreamProperty>, Error> {
    match rest
    case Success(ps) => Success(out + ps)
    case Failure(e) => Failure(e)
  }

  /** Writing one more property moves it from the rest to what is written. */
  lemma EmitPrepend(out: seq<StreamProperty>, written: Option<StreamProperty>, rest: Result<seq<StreamProperty>, Error>)
    ensures Emit(out, Prepend(written, rest)) == Emit(out + (if written.Some? then [written.value] else []), rest)
    ensures Emit([], rest) == rest
  {
    if rest.Success? {
      var w := if written.Some? then [written.value] else [];
      assert out + (w + rest.value) == out + w + rest.value;
      assert [] + rest.value == rest.value;
    }
  }

  /** The outer loop of DoFlattenAsync from cursor pos: the properties it
      writes inside the wrapping object, or the NullReferenceException of
      reading the key when "DisplayName" is followed by no value. */
  function StreamFrom(toks: seq<Token>, pos: nat): (r: Result<seq<StreamProperty>, Error>)
    requires pos <= |toks| + 1
    ensures r.Failure? ==> r.error == NullReference("reader.Value")
    ensures r.Success? ==> |r.value| <= |toks| + 1 - pos
    ensures pos >= |toks| ==> r == Success([])
    decreases |toks| + 1 - pos
  {
    match Iterate(toks, pos)
    case Finished => Success([])
    case Thrown(e) => Failure(e)
    case Continue(next, written) => Prepend(written, StreamFrom(toks, next))
  }

  // ---- The tokens of well-shaped readings ----

  /** A reading as the stream sees it: its five primitive values. */
  datatype StreamReading = StreamReading(applicationUri: string, nodeId: string, displayName: string,
                                         value: Option<Scalar>, sourceTimestamp: Scalar)

  function Name(s: string): Token {
    Token(Some(SString(s)))
  }

  /** {"ApplicationUri":u,"NodeId":n,"DisplayName":d,"Value":{"Value":v,"SourceTimestamp":t}} */
  function ReadingTokens(rd: StreamReading): seq<Token> {
    [Token(None),
     Name("ApplicationUri"), Name(rd.applicationUri),
     Name("NodeId"), Name(rd.nodeId),
     Name("DisplayName"), Name(rd.displayName),
     Name("Value"), Token(None),
     Name("Value"), Token(rd.value),
     Name("SourceTimestamp"), Token(Some(rd.sourceTimestamp)),
     Token(None),
     Token(None)]
  }

  function Flat(rs: seq<StreamReading>): (toks: seq<Token>)
    ensures |toks| == 15 * |rs|
  {
    if rs == [] then [] else ReadingTokens(rs[0]) + Flat(rs[1..])
  }

  /** A JSON array of readings. */
  function ArrayTokens(rs: seq<StreamReading>): seq<Token> {
    [Token(None)] + Flat(rs) + [Token(None)]
  }

  /** None of the values the scan passes over on its way to "DisplayName" is
      itself the string "DisplayName". */
  predicate Plain(rd: StreamReading) {
    rd.applicationUri != "DisplayName" && rd.nodeId != "DisplayName" && rd.sourceTimestamp != SString("DisplayName")
  }

  /** One property per reading, in encounter order. */
  function Expected(rs: seq<StreamReading>): seq<StreamProperty> {
    seq(|rs|, i requires 0 <= i < |rs| => StreamProperty(rs[i].displayName, rs[i].value))
  }

  lemma NoMatchJoin(toks: seq<Token>, a: nat, b: nat, c: nat, name: string)
    requires a <= b <= c && NoMatch(toks, a, b, name) && NoMatch(toks, b, c, name)
    ensures NoMatch(toks, a, c, name)
  {
  }

  lemma SeekFinds(toks: seq<Token>, from: nat, j: nat, name: string)
    requires from <= j < |toks| && Matches(toks[j].value, name)
    requires NoMatch(toks, from, j, name)
    ensures Seek(toks, from, name) == (true, j + 1)
  {
    SeekIsFirstMatch(toks, from, name);
  }

  lemma SeekMisses(toks: seq<Token>, from: nat, name: string)
    requires from <= |toks| + 1
    requires NoMatch(toks, from, |toks|, name)
    ensures Seek(toks, from, name) == (false, |toks| + 1)
  {
    SeekIsFirstMatch(toks, from, name);
  }

  /** The tokens of rd lie at s, as ReadingTokens lays them out. */
  predicate ReadingAt(toks: seq<Token>, s: nat, rd: StreamReading) {
    && s + 15 <= |toks|
    && toks[s] == Token(None)
    && toks[s + 1] == Name("ApplicationUri") && toks[s + 2] == Name(rd.applicationUri)
    && toks[s + 3] == Name("NodeId") && toks[s + 4] == Name(rd.nodeId)
    && toks[s + 5] == Name("DisplayName") && toks[s + 6] == Name(rd.displayName)
    && toks[s + 7] == Name("Value") && toks[s + 8] == Token(None)
    && toks[s + 9] == Name("Value") && toks[s + 10] == Token(rd.value)
    && toks[s + 11] == Name("SourceTimestamp") && toks[s + 12] == Token(Some(rd.sourceTimestamp))
    && toks[s + 13] == Token(None) && toks[s + 14] == Token(None)
  }

  /** The tokens of rs lie one reading after another from s. */
  predicate ReadingsAt(toks: seq<Token>, s: nat, rs: seq<StreamReading>)
    decreases |rs|
  {
    && s + 15 * |rs| <= |toks|
    && (rs != [] ==> ReadingAt(toks, s, rs[0]) && ReadingsAt(toks, s + 15, rs[1..]))
  }

  lemma Regroup(a: seq<Token>, b: seq<Token>, c: seq<Token>, d: seq<Token>)
    ensures a + (b + c) + d == (a + b) + c + d
  {
  }

  lemma PieceAt(a: seq<Token>, b: seq<Token>, c: seq<Token>, k: nat)
    requires k < |b|
    ensures (a + b + c)[|a| + k] == b[k]
  {
  }

  /** ReadingTokens(rd) as the middle piece of a sequence is rd laid out there. */
  lemma ReadingTokensAt(a: seq<Token>, rd: StreamReading, c: seq<Token>)
    ensures ReadingAt(a + ReadingTokens(rd) + c, |a|, rd)
  {
    var rt := ReadingTokens(rd);
    forall k | 0 <= k < 15 ensures (a + rt + c)[|a| + k] == rt[k] {
      PieceAt(a, rt, c, k);
    }
  }

  /** Flat(rs) lays the readings out one after another. */
  lemma {:induction false} FlatLayout(prefix: seq<Token>, rs: seq<StreamReading>, suffix: seq<Token>)
    ensures ReadingsAt(prefix + Flat(rs) + suffix, |prefix|, rs)
    decreases |rs|
  {
    if rs != [] {
      var rt, rest := ReadingTokens(rs[0]), Flat(rs[1..]);
      assert Flat(rs) == rt + rest;
      Regroup(prefix, rt, rest, suffix);
      ReadingTokensAt(prefix, rs[0], rest + suffix);
      assert prefix + rt + (rest + suffix) == prefix + rt + rest + suffix;
      FlatLayout(prefix + rt, rs[1..], suffix);
    }
  }

  /** The scan from pos + 1 stops at the reading's "DisplayName"; the key is the next token. */
  lemma KeyOfReading(toks: seq<Token>, pos: nat, s: nat, rd: StreamReading)
    requires pos < s && ReadingAt(toks, s, rd) && Plain(rd)
    requires NoMatch(toks, pos + 1, s, "DisplayName")
    ensures Seek(toks, pos + 1, "DisplayName") == (true, s + 6)
    ensures Current(toks, s + 7) == Some(SString(rd.displayName))
  {
    assert NoMatch(toks, s, s + 5, "DisplayName");
    NoMatchJoin(toks, pos + 1, s, s + 5, "DisplayName");
    SeekFinds(toks, pos + 1, s + 5, "DisplayName");
  }

  /** The two "Value" scans after the key, and the value token after them. */
  lemma ValueOfReading(toks: seq<Token>, s: nat, rd: StreamReading)
    requires ReadingAt(toks, s, rd)
    ensures Seek(toks, s + 7, "Value") == (true, s + 8)
    ensures Seek(toks, s + 8, "Value") == (true, s + 10)
    ensures Current(toks, s + 11) == rd.value
  {
    SeekFinds(toks, s + 7, s + 7, "Value");
    SeekFinds(toks, s + 8, s + 9, "Value");
  }

  /** The pass over one reading at s: from the outer loop's cursor pos to the
      cursor s + 11, just after its value, writing one property. */
  lemma OneReadingStep(toks: seq<Token>, pos: nat, s: nat, rd: StreamReading)
    requires pos < s && ReadingAt(toks, s, rd) && Plain(rd)
    requires NoMatch(toks, pos + 1, s, "DisplayName")
    ensures Iterate(toks, pos) == Continue(s + 11, Some(StreamProperty(rd.displayName, rd.value)))
  {
    KeyOfReading(toks, pos, s, rd);
    ValueOfReading(toks, s, rd);
  }

  /** A pass that writes p, followed by a rest that writes ps. */
  lemma WrittenThenRest(toks: seq<Token>, pos: nat, next: nat, p: StreamProperty, ps: seq<StreamProperty>)
    requires pos <= |toks| + 1 && Iterate(toks, pos) == Continue(next, Some(p))
    requires StreamFrom(toks, next) == Success(ps)
    ensures StreamFrom(toks, pos) == Success([p] + ps)
  {
  }

  /** The pass over one reading followed by a rest that writes ps. */
  lemma ReadingThenRest(toks: seq<Token>, pos: nat, s: nat, rd: StreamReading, ps: seq<StreamProperty>)
    requires pos < s && ReadingAt(toks, s, rd) && Plain(rd)
    requires NoMatch(toks, pos + 1, s, "DisplayName")
    requires StreamFrom(toks, s + 11) == Success(ps)
    ensures StreamFrom(toks, pos) == Success([StreamProperty(rd.displayName, rd.value)] + ps)
  {
    OneReadingStep(toks, pos, s, rd);
    WrittenThenRest(toks, pos, s + 11, StreamProperty(rd.displayName, rd.value), ps);
  }

  /** With no "DisplayName" after the next token, nothing more is written. */
  lemma NothingMore(toks: seq<Token>, pos: nat)
    requires pos <= |toks| + 1
    requires NoMatch(toks, pos + 1, |toks|, "DisplayName")
    ensures StreamFrom(toks, pos) == Success([])
  {
    if pos < |toks| {
      SeekMisses(toks, pos + 1, "DisplayName");
      assert Iterate(toks, pos) == Continue(|toks| + 1, None);
      assert StreamFrom(toks, |toks| + 1) == Success([]);
      var none: seq<StreamProperty> := [];
      assert [] + none == none;
    }
  }

  /** The stream of the readings rs, laid out at start, preceded (after the
      cursor's next token) and followed by tokens that are not "DisplayName". */
  lemma {:induction false} StreamFromReadings(toks: seq<Token>, pos: nat, start: nat, rs: seq<StreamReading>)
    requires pos < start && ReadingsAt(toks, start, rs)
    requires forall i :: 0 <= i < |rs| ==> Plain(rs[i])
    requires NoMatch(toks, pos + 1, start, "DisplayName")
    requires NoMatch(toks, start + 15 * |rs|, |toks|, "DisplayName")
    ensures StreamFrom(toks, pos) == Success(Expected(rs))
    decreases |rs|
  {
    if rs == [] {
      NoMatchJoin(toks, pos + 1, start, |toks|, "DisplayName");
      NothingMore(toks, pos);
      assert Expected(rs) == [];
    } else {
      ReadingsHead(toks, start, rs);
      StreamFromReadings(toks, start + 11, start + 15, rs[1..]);
      ReadingThenRest(toks, pos, start, rs[0], Expected(rs[1..]));
    }
  }

  /** The first of the readings laid out at start, and the rest after it. */
  lemma ReadingsHead(toks: seq<Token>, start: nat, rs: seq<StreamReading>)
    requires rs != [] && ReadingsAt(toks, start, rs)
    requires forall i :: 0 <= i < |rs| ==> Plain(rs[i])
    ensures ReadingAt(toks, start, rs[0]) && Plain(rs[0])
    ensures ReadingsAt(toks, start + 15, rs[1..]) && forall i :: 0 <= i < |rs[1..]| ==> Plain(rs[1..][i])
    ensures NoMatch(toks, start + 12, start + 15, "DisplayName")
    ensures start + 15 + 15 * |rs[1..]| == start + 15 * |rs|
    ensures Expected(rs) == [StreamProperty(rs[0].displayName, rs[0].value)] + Expected(rs[1..])
  {
    assert Plain(rs[0]);
    forall i | 0 <= i < |rs[1..]| ensures Plain(rs[1..][i]) {
      assert rs[1..][i] == rs[i + 1];
    }
  }

  /** DoFlattenAsync on an array of readings writes, for each reading in
      order, its DisplayName with its Value: no grouping, no
      deduplication, no template, no override and no time property. */
  lemma FlattenAsyncOfArray(rs: seq<StreamReading>)
    requires forall i :: 0 <= i < |rs| ==> Plain(rs[i])
    ensures StreamFrom(ArrayTokens(rs), 0) == Success(Expected(rs))
  {
    var toks := ArrayTokens(rs);
    FlatLayout([Token(None)], rs, [Token(None)]);
    assert NoMatch(toks, 1 + 15 * |rs|, |toks|, "DisplayName");
    StreamFromReadings(toks, 0, 1, rs);
  }

  /** Two readings with the same display name both appear, in stream order. */
  lemma StreamKeepsDuplicates(r1: StreamReading, r2: StreamReading)
    requires Plain(r1) && Plain(r2) && r1.displayName == r2.displayName
    ensures StreamFrom(ArrayTokens([r1, r2]), 0) ==
            Success([StreamProperty(r1.displayName, r1.value), StreamProperty(r1.displayName, r2.value)])
  {
    FlattenAsyncOfArray([r1, r2]);
    assert Expected([r1, r2]) == [StreamProperty(r1.displayName, r1.value), StreamProperty(r1.displayName, r2.value)];
  }

  /** A reading whose DisplayName comes after its Value envelope:
      {"ApplicationUri":u,"NodeId":n,"Value":{"Value":v,"SourceTimestamp":t},"DisplayName":d} */
  function ValueFirstTokens(rd: StreamReading): seq<Token> {
    [Token(None),
     Name("ApplicationUri"), Name(rd.applicationUri),
     Name("NodeId"), Name(rd.nodeId),
     Name("Value"), Token(None),
     Name("Value"), Token(rd.value),
     Name("SourceTimestamp"), Token(Some(rd.sourceTimestamp)),
     Token(None),
     Name("DisplayName"), Name(rd.displayName),
     Token(None)]
  }

  /** The reader only moves forward, so the output depends on property order:
      alone, a reading with its DisplayName after its Value writes nothing. */
  lemma ValueFirstWritesNothing()
    ensures StreamFrom(ValueFirstTokens(StreamReading("urn:a", "n1", "d1", Some(SOther("1")), SString("t1"))), 0) == Success([])
  {
    var toks := ValueFirstTokens(StreamReading("urn:a", "n1", "d1", Some(SOther("1")), SString("t1")));
    SeekFinds(toks, 1, 12, "DisplayName");
    SeekMisses(toks, 14, "Value");
    assert Iterate(toks, 0) == Continue(16, None);
  }

  /** Followed by a reading in the usual order, its display name is paired
      with the next reading's value, and both its own value and the next
      reading's display name are lost. */
  lemma ValueFirstTakesNextValue()
    ensures var r1, r2 := StreamReading("urn:a", "n1", "d1", Some(SOther("1")), SString("t1")),
                          StreamReading("urn:a", "n2", "d2", Some(SOther("2")), SString("t2"));
      StreamFrom([Token(None)] + ValueFirstTokens(r1) + ReadingTokens(r2) + [Token(None)], 0) ==
      Success([StreamProperty("d1", Some(SOther("2")))])
  {
    var r1, r2 := StreamReading("urn:a", "n1", "d1", Some(SOther("1")), SString("t1")),
                  StreamReading("urn:a", "n2", "d2", Some(SOther("2")), SString("t2"));
    var toks := [Token(None)] + ValueFirstTokens(r1) + ReadingTokens(r2) + [Token(None)];
    // the key "d1" is read at 14; the next two "Value" names are reading 2's, at 23 and 25
    SeekFinds(toks, 1, 13, "DisplayName");
    SeekFinds(toks, 15, 23, "Value");
    SeekFinds(toks, 24, 25, "Value");
    assert Iterate(toks, 0) == Continue(27, Some(StreamProperty("d1", Some(SOther("2")))));
    SeekMisses(toks, 28, "DisplayName");
    assert Iterate(toks, 27) == Continue(33, None);
    assert StreamFrom(toks, 33) == Success([]);
    assert StreamFrom(toks, 27) == Success([]);
    var p := StreamProperty("d1", Some(SOther("2")));
    assert [p] + [] == [p];
    assert StreamFrom(toks, 0) == Prepend(Some(p), StreamFrom(toks, 27));
    assert StreamFrom(toks, 0) == Success([StreamProperty("d1", Some(SOther("2")))]);
  }

  /** "DisplayName" as the very last token: reading the key finds no value. */
  lemma DisplayNameAtEndFails(toks: seq<Token>)
    requires |toks| >= 2 && toks[|toks| - 1] == Name("DisplayName")
    requires NoMatch(toks, 1, |toks| - 1, "DisplayName")
    ensures StreamFrom(toks, 0) == Failure(NullReference("reader.Value"))
  {
    SeekFinds(toks, 1, |toks| - 1, "DisplayName");
    assert Iterate(toks, 0) == Thrown(NullReference("reader.Value"));
  }
}
